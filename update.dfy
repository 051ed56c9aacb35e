/** `PointsKeeper.update_points` and `_calculate_bonus_points` in
    points_calculator/fdb_points_keeper.py (lines 59-241) as a whole: every
    player streamed from the `players` collection gets the week's records
    written, then, after the final race, the bonuses; the race number is
    recorded last. The scraped race results, the final standings and the
    contents of race_names.json are parameters. */
module PointsUpdate {
  import opened Wrappers
  import opened Dicts
  import opened Scoring
  import opened Records
  import opened PointsKeeping
  import opened BonusPoints
  import Parser

  /** `_get_player_picks` (lines 268-281): the pairs of the player's
      `picks` document; a missing document makes `to_dict()` return
      `None`, whose `items` raises `AttributeError`. */
  function PicksOf(picks: map<string, seq<PickItem>>, name: string): (r: Result<seq<PickItem>>)
    ensures r.Ok? <==> name in picks
    ensures r.Ok? ==> r.value == picks[name]
    ensures r.Err? ==> r.error == AttributeError
  {
    if name in picks then Ok(picks[name]) else Err(AttributeError)
  }

  /** The field of this week's race and the fields of every race of the
      season so far (lines 71, 170, 180 and 182-184); each lookup that
      misses raises `KeyError`. */
  function RaceFields(raceNum: int, raceNames: Dict<string, string>): (r: Result<(string, seq<string>)>)
    ensures r.Err? ==> r.error == KeyError
    ensures r.Ok? ==> RaceCode(raceNum).Some? && Get(raceNames, RaceCode(raceNum).value) == Some(r.value.0)
    ensures r.Ok? ==> SeasonFields(raceNames, raceNum) == Ok(r.value.1)
  {
    match RaceCode(raceNum)
    case None => Err(KeyError)
    case Some(code) =>
      match Get(raceNames, code)
      case None => Err(KeyError)
      case Some(field) =>
        match SeasonFields(raceNames, raceNum)
        case Err(e) => Err(e)
        case Ok(fields) => Ok((field, fields))
  }

  /** Once the race's own code is in the table, the season's fields end
      with the race's own field: the season total counts this week. */
  lemma RaceFieldsLast(raceNum: int, raceNames: Dict<string, string>)
    requires RaceFields(raceNum, raceNames).Ok?
    ensures var r := RaceFields(raceNum, raceNames).value;
            |r.1| == raceNum && r.1[raceNum - 1] == r.0
  {
  }

  /** One player's records for the week (lines 98-143), then the race's
      fields: the first of these to fail gives the player's error. */
  function PlayerWeek(picks: map<string, seq<PickItem>>, name: string, results: Dict<string, seq<Parser.Standing>>,
                      replacements: Dict<string, Dict<string, string>>, fields: Result<(string, seq<string>)>)
    : Result<seq<Record>>
  {
    match PicksOf(picks, name)
    case Err(e) => Err(e)
    case Ok(p) =>
      match RecordsFrom(SortByKey(p), results, replacements, 0, [])
      case Err(e) => Err(e)
      case Ok(records) => if fields.Err? then Err(fields.error) else Ok(records)
  }

  /** `PlayerWeek` for each streamed name. */
  function PlayerStep(picks: map<string, seq<PickItem>>, results: Dict<string, seq<Parser.Standing>>,
                      replacements: Dict<string, Dict<string, string>>, fields: Result<(string, seq<string>)>)
    : string -> Result<seq<Record>>
  {
    name => PlayerWeek(picks, name, results, replacements, fields)
  }

  /** The records of the players in stream order, or the error of the
      first player that fails. */
  function WeekRecords(picks: map<string, seq<PickItem>>, names: seq<string>, results: Dict<string, seq<Parser.Standing>>,
                       replacements: Dict<string, Dict<string, string>>, fields: Result<(string, seq<string>)>)
    : (r: Result<seq<seq<Record>>>)
    ensures r.Ok? ==> |r.value| == |names|
  {
    var f := PlayerStep(picks, results, replacements, fields);
    if MapAll(f, names).Ok? then MapAllLength(f, names); MapAll(f, names)
    else MapAll(f, names)
  }

  /** A player's week succeeds exactly when the picks document is there,
      its records can be scored and the race's fields are in the table; it
      then gives those records. */
  lemma PlayerWeekSpec(picks: map<string, seq<PickItem>>, name: string, results: Dict<string, seq<Parser.Standing>>,
                       replacements: Dict<string, Dict<string, string>>, fields: Result<(string, seq<string>)>)
    ensures PlayerWeek(picks, name, results, replacements, fields).Ok? <==>
              name in picks && RecordsFrom(SortByKey(picks[name]), results, replacements, 0, []).Ok? && fields.Ok?
    ensures PlayerWeek(picks, name, results, replacements, fields).Ok? ==>
              PlayerWeek(picks, name, results, replacements, fields).value
              == RecordsFrom(SortByKey(picks[name]), results, replacements, 0, []).value
  {
  }

  /** The week succeeds exactly when every player has a picks document
      whose records can be scored and, when there is a player, the race's
      fields are all in the table; each player's entry is then that
      player's records. */
  lemma WeekRecordsSpec(picks: map<string, seq<PickItem>>, names: seq<string>,
                        results: Dict<string, seq<Parser.Standing>>,
                        replacements: Dict<string, Dict<string, string>>, fields: Result<(string, seq<string>)>)
    ensures WeekRecords(picks, names, results, replacements, fields).Ok? <==>
              (names == [] || fields.Ok?) &&
              forall i :: 0 <= i < |names| ==>
                names[i] in picks && RecordsFrom(SortByKey(picks[names[i]]), results, replacements, 0, []).Ok?
    ensures WeekRecords(picks, names, results, replacements, fields).Ok? ==>
              |WeekRecords(picks, names, results, replacements, fields).value| == |names| &&
              forall i :: 0 <= i < |names| ==>
                WeekRecords(picks, names, results, replacements, fields).value[i]
                == RecordsFrom(SortByKey(picks[names[i]]), results, replacements, 0, []).value
  {
    var f := PlayerStep(picks, results, replacements, fields);
    MapAllSpec(f, names);
    forall i | 0 <= i < |names|
      ensures f(names[i]) == PlayerWeek(picks, names[i], results, replacements, fields)
      ensures f(names[i]).Ok? <==>
                names[i] in picks && RecordsFrom(SortByKey(picks[names[i]]), results, replacements, 0, []).Ok? && fields.Ok?
      ensures f(names[i]).Ok? ==> f(names[i]).value == RecordsFrom(SortByKey(picks[names[i]]), results, replacements, 0, []).value
    {
      PlayerWeekSpec(picks, names[i], results, replacements, fields);
    }
    if names != [] && !fields.Ok? {
      assert !f(names[0]).Ok?;
    }
  }

  /** The records of the streamed players, in stream order, up to the
      first one whose week fails: the players the loop of lines 91-190
      finishes before it raises, or all of them. */
  function WeekDone(picks: map<string, seq<PickItem>>, names: seq<string>, results: Dict<string, seq<Parser.Standing>>,
                    replacements: Dict<string, Dict<string, string>>, fields: Result<(string, seq<string>)>)
    : (done: seq<seq<Record>>)
    ensures |done| <= |names|
    ensures forall j :: 0 <= j < |done| ==> PlayerWeek(picks, names[j], results, replacements, fields) == Ok(done[j])
    ensures |done| < |names| ==> PlayerWeek(picks, names[|done|], results, replacements, fields).Err?
    decreases |names|
  {
    if names == [] then []
    else
      match PlayerWeek(picks, names[0], results, replacements, fields)
      case Err(_) => []
      case Ok(records) =>
        var rest := WeekDone(picks, names[1..], results, replacements, fields);
        assert forall j :: 0 < j <= |rest| ==> names[1..][j - 1] == names[j];
        [records] + rest
  }

  /** The week succeeds exactly when every player's week does, and then
      its records are `WeekDone`; otherwise its error is that of the first
      player past `WeekDone`. */
  lemma WeekDoneSpec(picks: map<string, seq<PickItem>>, names: seq<string>, results: Dict<string, seq<Parser.Standing>>,
                     replacements: Dict<string, Dict<string, string>>, fields: Result<(string, seq<string>)>)
    ensures var week := WeekRecords(picks, names, results, replacements, fields);
            var done := WeekDone(picks, names, results, replacements, fields);
            && (week.Ok? <==> |done| == |names|)
            && (week.Ok? ==> week.value == done)
            && (week.Err? ==> PlayerWeek(picks, names[|done|], results, replacements, fields) == Err(week.error))
  {
    var f := PlayerStep(picks, results, replacements, fields);
    var done := WeekDone(picks, names, results, replacements, fields);
    MapAllSpec(f, names);
    assert forall j :: 0 <= j < |names| ==> f(names[j]) == PlayerWeek(picks, names[j], results, replacements, fields);
    if MapAll(f, names).Err? {
      var i :| 0 <= i < |names| && f(names[i]) == Err(MapAll(f, names).error) &&
               forall j :: 0 <= j < i ==> f(names[j]).Ok?;
      assert i == |done|;
    }
  }

  /** When the players before the `i`-th succeed with `done` and the
      `i`-th fails, `WeekDone` is `done`. */
  lemma WeekDoneAt(picks: map<string, seq<PickItem>>, names: seq<string>, results: Dict<string, seq<Parser.Standing>>,
                   replacements: Dict<string, Dict<string, string>>, fields: Result<(string, seq<string>)>,
                   i: nat, done: seq<seq<Record>>)
    requires i < |names| && MapAll(PlayerStep(picks, results, replacements, fields), names[..i]) == Ok(done)
    requires PlayerWeek(picks, names[i], results, replacements, fields).Err?
    ensures WeekDone(picks, names, results, replacements, fields) == done
  {
    var f := PlayerStep(picks, results, replacements, fields);
    var w := WeekDone(picks, names, results, replacements, fields);
    MapAllSpec(f, names[..i]);
    assert forall j :: 0 <= j < i ==> f(names[..i][j]) == PlayerWeek(picks, names[j], results, replacements, fields);
    assert |w| == i;
  }

  /** The riders written this week after the players' records, in order. */
  function WeekSeen(updated: seq<string>, weeks: seq<seq<Record>>): seq<string> {
    if weeks == [] then updated
    else RecordsSeen(WeekSeen(updated, weeks[..|weeks| - 1]), weeks[|weeks| - 1])
  }

  /** The writes to the `scores` collection of all players' records. */
  function WeekWrites(updated: seq<string>, weeks: seq<seq<Record>>, field: string): seq<ScoreWrite> {
    if weeks == [] then []
    else
      var n := |weeks| - 1;
      WeekWrites(updated, weeks[..n], field) + RecordsWrites(WeekSeen(updated, weeks[..n]), weeks[n], field)
  }

  /** One more player's records extend the week's writes and riders. */
  lemma WeekStep(updated: seq<string>, weeks: seq<seq<Record>>, records: seq<Record>, field: string)
    ensures WeekSeen(updated, weeks + [records]) == RecordsSeen(WeekSeen(updated, weeks), records)
    ensures WeekWrites(updated, weeks + [records], field)
            == WeekWrites(updated, weeks, field) + RecordsWrites(WeekSeen(updated, weeks), records, field)
  {
    assert (weeks + [records])[..|weeks|] == weeks;
  }

  /** The riders written after all players are those written before,
      followed by the riders of the week's writes. */
  lemma {:induction false} WeekSeenWrites(updated: seq<string>, weeks: seq<seq<Record>>, field: string)
    ensures WeekSeen(updated, weeks) == updated + RidersOf(WeekWrites(updated, weeks, field))
    decreases |weeks|
  {
    if weeks != [] {
      var n := |weeks| - 1;
      var seen := WeekSeen(updated, weeks[..n]);
      var front := WeekWrites(updated, weeks[..n], field);
      var last := RecordsWrites(seen, weeks[n], field);
      WeekSeenWrites(updated, weeks[..n], field);
      RecordsSeenWrites(seen, weeks[n], field);
      RidersOfAppend(front, last);
      AppendStep(updated, seen, RidersOf(front), RidersOf(last), WeekSeen(updated, weeks));
    }
  }

  /** Appending in two steps is appending once. */
  lemma AppendStep<T>(first: seq<T>, middle: seq<T>, a: seq<T>, b: seq<T>, last: seq<T>)
    requires middle == first + a && last == middle + b
    ensures last == first + (a + b)
  {
  }

  /** `score_has_been_updated` never holds a rider twice. */
  lemma {:induction false} WeekSeenDistinct(updated: seq<string>, weeks: seq<seq<Record>>)
    requires Distinct(updated)
    ensures Distinct(WeekSeen(updated, weeks))
    decreases |weeks|
  {
    if weeks != [] {
      var n := |weeks| - 1;
      WeekSeenDistinct(updated, weeks[..n]);
      RecordsSeenDistinct(WeekSeen(updated, weeks[..n]), weeks[n]);
    }
  }

  /** Lines 158-172 across all players: a rider's document in the `scores`
      collection is written at most once in a week, with the rider's
      points in the first record that has the rider. */
  lemma WeekWrittenOnce(weeks: seq<seq<Record>>, field: string)
    ensures Distinct(RidersOf(WeekWrites([], weeks, field)))
    ensures forall w :: w in WeekWrites([], weeks, field) ==> w.field == field
  {
    WeekSeenWrites([], weeks, field);
    WeekSeenDistinct([], weeks);
    assert [] + RidersOf(WeekWrites([], weeks, field)) == RidersOf(WeekWrites([], weeks, field));
    WeekWritesField([], weeks, field);
  }

  /** Every write of the week sets the race's field. */
  lemma {:induction false} WeekWritesField(updated: seq<string>, weeks: seq<seq<Record>>, field: string)
    ensures forall w :: w in WeekWrites(updated, weeks, field) ==> w.field == field
    decreases |weeks|
  {
    if weeks != [] {
      var n := |weeks| - 1;
      WeekWritesField(updated, weeks[..n], field);
      RecordsWritesField(WeekSeen(updated, weeks[..n]), weeks[n], field);
    }
  }

  /** Every write of a player's records sets the race's field. */
  lemma {:induction false} RecordsWritesField(updated: seq<string>, records: seq<Record>, field: string)
    ensures forall w :: w in RecordsWrites(updated, records, field) ==> w.field == field
    decreases |records|
  {
    if records != [] {
      var n := |records| - 1;
      RecordsWritesField(updated, records[..n], field);
      WritesOfField(RecordsSeen(updated, records[..n]), records[n].points, field);
    }
  }

  /** Every write of one record sets the race's field. */
  lemma {:induction false} WritesOfField(updated: seq<string>, points: Dict<string, real>, field: string)
    ensures forall w :: w in WritesOf(updated, points, field) ==> w.field == field
    decreases |points|
  {
    if points != [] {
      WritesOfField(updated, points[..|points| - 1], field);
    }
  }

  /** The `players` collection after the week: each streamed player's
      document as `PlayerAfter` leaves it, every other one unchanged. */
  function WeekPlayers(players: map<string, Doc>, names: seq<string>, week: seq<seq<Record>>,
                       fields: Result<(string, seq<string>)>): (r: map<string, Doc>)
    requires |week| == |names| && forall i :: 0 <= i < |names| ==> names[i] in players
    ensures forall n :: n in r <==> n in players
    decreases |names|
  {
    if names == [] || fields.Err? then players
    else
      var k := |names| - 1;
      WeekPlayers(players, names[..k], week[..k], fields)[
        names[k] := PlayerAfter(players[names[k]], week[k], fields.value.0, fields.value.1)]
  }

  /** A document outside the stream is not touched by the week. */
  lemma {:induction false} WeekPlayersOther(players: map<string, Doc>, names: seq<string>, week: seq<seq<Record>>,
                                            fields: Result<(string, seq<string>)>, n: string)
    requires |week| == |names| && forall i :: 0 <= i < |names| ==> names[i] in players
    requires n in players && n !in names
    ensures WeekPlayers(players, names, week, fields)[n] == players[n]
    decreases |names|
  {
    if names != [] && fields.Ok? {
      var k := |names| - 1;
      assert n !in names[..k] && n != names[k];
      WeekPlayersOther(players, names[..k], week[..k], fields, n);
    }
  }

  /** With distinct names, the `i`-th streamed player's document after the
      week is its `PlayerAfter`. */
  lemma {:induction false} WeekPlayersName(players: map<string, Doc>, names: seq<string>, week: seq<seq<Record>>,
                                           fields: Result<(string, seq<string>)>, i: int)
    requires |week| == |names| && forall j :: 0 <= j < |names| ==> names[j] in players
    requires Distinct(names) && fields.Ok? && 0 <= i < |names|
    ensures WeekPlayers(players, names, week, fields)[names[i]] ==
              PlayerAfter(players[names[i]], week[i], fields.value.0, fields.value.1)
    decreases |names|
  {
    var k := |names| - 1;
    var w := WeekPlayers(players, names[..k], week[..k], fields);
    assert WeekPlayers(players, names, week, fields) ==
           w[names[k] := PlayerAfter(players[names[k]], week[k], fields.value.0, fields.value.1)];
    if i < k {
      assert names[i] != names[k];
      assert Distinct(names[..k]);
      assert names[..k][i] == names[i] && week[..k][i] == week[i];
      WeekPlayersName(players, names[..k], week[..k], fields, i);
    }
  }

  /** Documents that agree with `WeekPlayers` player by player are
      `WeekPlayers`. */
  lemma WeekPlayersIs(start: map<string, Doc>, mid: map<string, Doc>, names: seq<string>, week: seq<seq<Record>>,
                      fields: Result<(string, seq<string>)>)
    requires |week| == |names| && forall i :: 0 <= i < |names| ==> names[i] in start
    requires Distinct(names) && forall n :: n in mid <==> n in start
    requires forall n :: n in mid && n !in names ==> mid[n] == start[n]
    requires names != [] ==>
               fields.Ok? && forall i :: 0 <= i < |names| ==>
                 mid[names[i]] == PlayerAfter(start[names[i]], week[i], fields.value.0, fields.value.1)
    ensures mid == WeekPlayers(start, names, week, fields)
  {
    var w := WeekPlayers(start, names, week, fields);
    if names != [] {
      forall n | n in mid ensures mid[n] == w[n] {
        if n in names {
          var i :| 0 <= i < |names| && names[i] == n;
          WeekPlayersName(start, names, week, fields, i);
        } else {
          WeekPlayersOther(start, names, week, fields, n);
        }
      }
    }
  }

  /** Lines 91-190: the players loop. Each player in stream order has the
      week's records written by `UpdatePlayer`; the first player whose
      picks document is missing, whose records cannot be scored, or for
      whom a race's field is missing from the table, stops the loop with
      that error. Each total stored counts the week, as `PlayerAfter`
      intends. */
  method UpdateWeek(db: Database, names: seq<string>, results: Dict<string, seq<Parser.Standing>>,
                    replacements: Dict<string, Dict<string, string>>, fields: Result<(string, seq<string>)>)
    returns (err: Option<Error>)
    requires Distinct(names) && forall i :: 0 <= i < |names| ==> names[i] in db.players
    modifies db
    ensures forall n :: n in db.players <==> n in old(db.players)
    ensures var week := WeekRecords(db.picks, names, results, replacements, fields);
            err == if week.Err? then Some(week.error) else None
    ensures err.None? && names != [] ==>
              var week := WeekRecords(db.picks, names, results, replacements, fields).value;
              && |week| == |names|
              && db.scores == old(db.scores) + WeekWrites([], week, fields.value.0)
              && forall i :: 0 <= i < |names| ==>
                   db.players[names[i]] == PlayerAfter(old(db.players)[names[i]], week[i], fields.value.0, fields.value.1)
    ensures err.None? && names == [] ==> db.scores == old(db.scores)
    ensures err.Some? ==>
              var done := WeekDone(db.picks, names, results, replacements, fields);
              && db.players == WeekPlayers(old(db.players), names[..|done|], done, fields)
              && (done != [] ==> fields.Ok? && db.scores == old(db.scores) + WeekWrites([], done, fields.value.0))
              && (done == [] ==> db.scores == old(db.scores))
    ensures forall n :: n in db.players && n !in names ==> db.players[n] == old(db.players)[n]
    ensures db.raceNumber == old(db.raceNumber)
  {
    ghost var step := PlayerStep(db.picks, results, replacements, fields);
    ghost var start := db.players;
    ghost var starts := seq(|names|, k requires 0 <= k < |names| => start[names[k]]);
    var updated: seq<string> := [];
    ghost var done: seq<seq<Record>> := [];
    ghost var afters: seq<Doc> := [];
    ProgressStart(start, db.scores, names, step, fields, starts);
    for i := 0 to |names|
      invariant Progress(db.players, db.scores, start, old(db.scores), names, step, fields, starts, i, done, afters, updated)
      invariant db.raceNumber == old(db.raceNumber)
    {
      ghost var done', afters';
      ghost var seen := updated;
      err, updated, done', afters' := PlayerNext(db, names, results, replacements, fields, i, updated,
                                                 start, old(db.scores), starts, done, afters);
      if err.Some? {
        ProgressFrame(db.players, start, names, fields, starts, i, done, afters);
        WeekStopped(db.players, db.scores, start, old(db.scores), db.picks, names, results, replacements, fields,
                    starts, i, done, afters, seen);
        return;
      }
      done, afters := done', afters';
    }
    ProgressDone(db.players, db.scores, start, old(db.scores), names, step, fields, starts, done, afters, updated);
    return None;
  }

  /** Before the first player nothing is done. */
  lemma ProgressStart(start: map<string, Doc>, scores: seq<ScoreWrite>, names: seq<string>,
                      step: string -> Result<seq<Record>>, race: Result<(string, seq<string>)>, starts: seq<Doc>)
    requires forall k :: 0 <= k < |names| ==> names[k] in start
    requires starts == seq(|names|, k requires 0 <= k < |names| => start[names[k]])
    ensures Progress(start, scores, start, scores, names, step, race, starts, 0, [], [], [])
  {
    assert names[..0] == [];
  }

  /** The documents of the players outside the stream are never touched. */
  lemma ProgressFrame(players: map<string, Doc>, start: map<string, Doc>, names: seq<string>,
                      race: Result<(string, seq<string>)>, starts: seq<Doc>, i: nat,
                      done: seq<seq<Record>>, afters: seq<Doc>)
    requires DocsProgress(players, start, names, race, starts, i, done, afters)
    ensures forall n :: n in players <==> n in start
    ensures forall n :: n in players && n !in names ==> players[n] == start[n]
  {
    forall n | n in players && n !in names
      ensures players[n] == start[n]
    {
      assert n !in names[..i];
    }
  }

  /** Once every player is done: the week's records, the writes of the
      whole week, and each player's document after the week. */
  lemma ProgressDone(players: map<string, Doc>, log: seq<ScoreWrite>, start: map<string, Doc>,
                     scores: seq<ScoreWrite>, names: seq<string>, step: string -> Result<seq<Record>>,
                     race: Result<(string, seq<string>)>, starts: seq<Doc>,
                     done: seq<seq<Record>>, afters: seq<Doc>, updated: seq<string>)
    requires Progress(players, log, start, scores, names, step, race, starts, |names|, done, afters, updated)
    ensures MapAll(step, names) == Ok(done) && |done| == |names|
    ensures names != [] ==>
              && race.Ok?
              && log == scores + WeekWrites([], done, race.value.0)
              && forall i :: 0 <= i < |names| ==>
                   players[names[i]] == PlayerAfter(start[names[i]], done[i], race.value.0, race.value.1)
    ensures names == [] ==> log == scores
    ensures forall n :: n in players <==> n in start
    ensures forall n :: n in players && n !in names ==> players[n] == start[n]
  {
    assert names[..|names|] == names;
    assert starts[..|names|] == starts;
    ProgressFrame(players, start, names, race, starts, |names|, done, afters);
    if names != [] {
      AfterAllAt(starts, done, race.value.0, race.value.1);
      forall i | 0 <= i < |names|
        ensures players[names[i]] == PlayerAfter(start[names[i]], done[i], race.value.0, race.value.1)
      {
        assert players[names[i]] == afters[i] == AfterAll(starts, done, race.value.0, race.value.1)[i];
        assert starts[i] == start[names[i]];
      }
    }
  }

  /** When the loop stops after `i` players: the documents of those
      players are as `WeekPlayers` leaves them, and the log holds their
      writes. */
  lemma ProgressStop(players: map<string, Doc>, log: seq<ScoreWrite>, start: map<string, Doc>,
                     scores: seq<ScoreWrite>, names: seq<string>, step: string -> Result<seq<Record>>,
                     race: Result<(string, seq<string>)>, starts: seq<Doc>, i: nat,
                     done: seq<seq<Record>>, afters: seq<Doc>, updated: seq<string>)
    requires Distinct(names)
    requires Progress(players, log, start, scores, names, step, race, starts, i, done, afters, updated)
    ensures |done| == i <= |names|
    ensures players == WeekPlayers(start, names[..i], done, race)
    ensures done != [] ==> race.Ok? && log == scores + WeekWrites([], done, race.value.0)
    ensures done == [] ==> log == scores
  {
    var front := names[..i];
    assert Distinct(front) by {
      assert forall a, b :: 0 <= a < b < i ==> front[a] == names[a] && front[b] == names[b];
    }
    if i > 0 {
      AfterAllAt(starts[..i], done, race.value.0, race.value.1);
      forall j | 0 <= j < i
        ensures players[front[j]] == PlayerAfter(start[front[j]], done[j], race.value.0, race.value.1)
      {
        assert players[names[j]] == afters[j] == AfterAll(starts[..i], done, race.value.0, race.value.1)[j];
        assert starts[..i][j] == start[names[j]];
      }
    }
    WeekPlayersIs(start, players, front, done, race);
  }

  /** The loop stopped by the `i`-th player's error: the collections are
      as the players of `WeekDone` left them. */
  lemma WeekStopped(players: map<string, Doc>, log: seq<ScoreWrite>, start: map<string, Doc>, scores: seq<ScoreWrite>,
                    picks: map<string, seq<PickItem>>, names: seq<string>, results: Dict<string, seq<Parser.Standing>>,
                    replacements: Dict<string, Dict<string, string>>, fields: Result<(string, seq<string>)>,
                    starts: seq<Doc>, i: nat, done: seq<seq<Record>>, afters: seq<Doc>, updated: seq<string>)
    requires Distinct(names) && i < |names|
    requires Progress(players, log, start, scores, names, PlayerStep(picks, results, replacements, fields),
                      fields, starts, i, done, afters, updated)
    requires PlayerWeek(picks, names[i], results, replacements, fields).Err?
    ensures var done := WeekDone(picks, names, results, replacements, fields);
            && players == WeekPlayers(start, names[..|done|], done, fields)
            && (done != [] ==> fields.Ok? && log == scores + WeekWrites([], done, fields.value.0))
            && (done == [] ==> log == scores)
  {
    ProgressStop(players, log, start, scores, names, PlayerStep(picks, results, replacements, fields),
                 fields, starts, i, done, afters, updated);
    WeekDoneAt(picks, names, results, replacements, fields, i, done);
  }

  /** The state of the players loop once the first `i` streamed names are
      done: their records so far, the riders already written and the
      scores log, then each player's document. */
  ghost predicate Progress(players: map<string, Doc>, log: seq<ScoreWrite>, start: map<string, Doc>,
                           scores: seq<ScoreWrite>, names: seq<string>, step: string -> Result<seq<Record>>,
                           race: Result<(string, seq<string>)>, starts: seq<Doc>, i: nat,
                           done: seq<seq<Record>>, afters: seq<Doc>, updated: seq<string>)
  {
    && WritesProgress(log, scores, names, step, race, i, done, updated)
    && DocsProgress(players, start, names, race, starts, i, done, afters)
  }

  /** The records of the first `i` players and what has been written to
      the `scores` collection for them. */
  ghost predicate WritesProgress(log: seq<ScoreWrite>, scores: seq<ScoreWrite>, names: seq<string>,
                                 step: string -> Result<seq<Record>>, race: Result<(string, seq<string>)>,
                                 i: nat, done: seq<seq<Record>>, updated: seq<string>)
  {
    && i <= |names| && |done| == i
    && MapAll(step, names[..i]) == Ok(done)
    && updated == WeekSeen([], done)
    && (i > 0 ==> race.Ok? && log == scores + WeekWrites([], done, race.value.0))
    && (i == 0 ==> log == scores)
  }

  /** The documents of the first `i` players are updated, the others are
      as they were. */
  ghost predicate DocsProgress(players: map<string, Doc>, start: map<string, Doc>, names: seq<string>,
                               race: Result<(string, seq<string>)>, starts: seq<Doc>, i: nat,
                               done: seq<seq<Record>>, afters: seq<Doc>)
  {
    && i <= |names| == |starts| && |done| == i && |afters| == i
    && (forall k :: 0 <= k < |names| ==> names[k] in start && starts[k] == start[names[k]])
    && (forall n :: n in players <==> n in start)
    && (forall j :: 0 <= j < i ==> players[names[j]] == afters[j])
    && (i > 0 ==> race.Ok? && afters == AfterAll(starts[..i], done, race.value.0, race.value.1))
    && (forall n :: n in start && n !in names[..i] ==> players[n] == start[n])
  }

  /** The records and writes after one more player. */
  lemma WritesNext(log: seq<ScoreWrite>, scores: seq<ScoreWrite>, names: seq<string>,
                   step: string -> Result<seq<Record>>, race: Result<(string, seq<string>)>,
                   i: nat, done: seq<seq<Record>>, updated: seq<string>, records: seq<Record>,
                   log': seq<ScoreWrite>, updated': seq<string>)
    requires i < |names| && WritesProgress(log, scores, names, step, race, i, done, updated)
    requires step(names[i]) == Ok(records) && race.Ok?
    requires log' == log + RecordsWrites(updated, records, race.value.0)
    requires updated' == RecordsSeen(updated, records)
    ensures WritesProgress(log', scores, names, step, race, i + 1, done + [records], updated')
  {
    MapAllExtend(step, names, i, done);
    ScoresStep(scores, done, records, race.value.0, i == 0);
    var done' := done + [records];
    assert done'[..i] == done;
  }

  /** The documents after one more player. */
  lemma DocsNext(players: map<string, Doc>, start: map<string, Doc>, names: seq<string>,
                 race: Result<(string, seq<string>)>, starts: seq<Doc>, i: nat,
                 done: seq<seq<Record>>, afters: seq<Doc>, records: seq<Record>, players': map<string, Doc>)
    requires Distinct(names) && i < |names| && race.Ok?
    requires DocsProgress(players, start, names, race, starts, i, done, afters)
    requires players' == players[names[i] := PlayerAfter(players[names[i]], records, race.value.0, race.value.1)]
    ensures DocsProgress(players', start, names, race, starts, i + 1, done + [records],
                         afters + [players'[names[i]]])
  {
    var after := players'[names[i]];
    assert afters + [after] == AfterAll(starts[..i + 1], done + [records], race.value.0, race.value.1) by {
      assert starts[i] == players[names[i]];
      AfterNext(starts, done, records, race.value.0, race.value.1, i, afters, after);
    }
    assert forall j :: 0 <= j < i + 1 ==> players'[names[j]] == (afters + [after])[j] by {
      DistinctAfter(names, i);
      DoneDocsNext(players, names, i, afters, after, players');
    }
    assert forall n :: n in start && n !in names[..i + 1] ==> players'[n] == start[n] by {
      OtherDocsNext(players, start, names, i, after, players');
    }
  }

  /** `AfterAll` with one more player's document. */
  lemma AfterNext(starts: seq<Doc>, done: seq<seq<Record>>, records: seq<Record>, raceField: string,
                  seasonFields: seq<string>, i: nat, afters: seq<Doc>, after: Doc)
    requires |done| == i < |starts|
    requires i > 0 ==> afters == AfterAll(starts[..i], done, raceField, seasonFields)
    requires i == 0 ==> afters == []
    requires after == PlayerAfter(starts[i], records, raceField, seasonFields)
    ensures afters + [after] == AfterAll(starts[..i + 1], done + [records], raceField, seasonFields)
  {
    AfterAllStep(starts, done, records, raceField, seasonFields, i);
  }

  /** The players done so far keep their documents, and the next one gets
      its new document. */
  lemma DoneDocsNext(players: map<string, Doc>, names: seq<string>, i: nat, afters: seq<Doc>, after: Doc,
                     players': map<string, Doc>)
    requires Distinct(names) && i < |names| && |afters| == i
    requires forall j :: 0 <= j < i ==> names[j] in players && players[names[j]] == afters[j]
    requires players' == players[names[i] := after]
    ensures forall j :: 0 <= j < i + 1 ==> players'[names[j]] == (afters + [after])[j]
  {
    forall j | 0 <= j < i + 1
      ensures players'[names[j]] == (afters + [after])[j]
    {
      if j < i {
        assert names[j] != names[i];
      }
    }
  }

  /** The players not yet reached keep the documents they started with. */
  lemma OtherDocsNext(players: map<string, Doc>, start: map<string, Doc>, names: seq<string>, i: nat, after: Doc,
                      players': map<string, Doc>)
    requires i < |names|
    requires forall n :: n in start && n !in names[..i] ==> n in players && players[n] == start[n]
    requires players' == players[names[i] := after]
    ensures forall n :: n in start && n !in names[..i + 1] ==> players'[n] == start[n]
  {
    forall n | n in start && n !in names[..i + 1]
      ensures players'[n] == start[n]
    {
      assert names[..i + 1] == names[..i] + [names[i]];
      assert n != names[i] && n !in names[..i];
    }
  }

  /** One turn of the players loop (lines 91-190 for `names[i]`). */
  method PlayerNext(db: Database, names: seq<string>, results: Dict<string, seq<Parser.Standing>>,
                    replacements: Dict<string, Dict<string, string>>, fields: Result<(string, seq<string>)>,
                    i: nat, updated: seq<string>, ghost start: map<string, Doc>, ghost scores: seq<ScoreWrite>,
                    ghost starts: seq<Doc>, ghost done: seq<seq<Record>>, ghost afters: seq<Doc>)
    returns (err: Option<Error>, updated': seq<string>, ghost done': seq<seq<Record>>, ghost afters': seq<Doc>)
    requires Distinct(names) && i < |names|
    requires Progress(db.players, db.scores, start, scores, names, PlayerStep(db.picks, results, replacements, fields),
                      fields, starts, i, done, afters, updated)
    modifies db
    ensures db.raceNumber == old(db.raceNumber)
    ensures err.Some? ==> WeekRecords(db.picks, names, results, replacements, fields) == Err(err.value)
    ensures err.Some? ==> PlayerWeek(db.picks, names[i], results, replacements, fields) == Err(err.value)
    ensures err.Some? ==> db.players == old(db.players) && db.scores == old(db.scores)
    ensures err.None? ==> Progress(db.players, db.scores, start, scores, names,
                                   PlayerStep(db.picks, results, replacements, fields),
                                   fields, starts, i + 1, done', afters', updated')
  {
    ghost var step := PlayerStep(db.picks, results, replacements, fields);
    ghost var players := db.players;
    ghost var log := db.scores;
    assert names[i] in db.players;
    var outcome;
    outcome, updated' := PlayerUpdate(db, names[i], results, replacements, fields, updated);
    assert step(names[i]) == outcome;
    if outcome.Err? {
      MapAllFail(step, names, i, done);
      return Some(outcome.error), updated', done, afters;
    }
    WritesNext(log, scores, names, step, fields, i, done, updated, outcome.value, db.scores, updated');
    DocsNext(players, start, names, fields, starts, i, done, afters, outcome.value, db.players);
    done' := done + [outcome.value];
    afters' := afters + [db.players[names[i]]];
    err := None;
  }

  /** The documents of the players after the week, from the documents
      before it. */
  function AfterAll(starts: seq<Doc>, weeks: seq<seq<Record>>, raceField: string, seasonFields: seq<string>): seq<Doc>
    requires |starts| == |weeks|
  {
    if starts == [] then []
    else
      var n := |starts| - 1;
      AfterAll(starts[..n], weeks[..n], raceField, seasonFields) + [PlayerAfter(starts[n], weeks[n], raceField, seasonFields)]
  }

  /** `AfterAll` for one more player. */
  lemma AfterAllStep(starts: seq<Doc>, done: seq<seq<Record>>, records: seq<Record>, raceField: string,
                     seasonFields: seq<string>, i: nat)
    requires |done| == i < |starts|
    ensures AfterAll(starts[..i + 1], done + [records], raceField, seasonFields)
            == (if i == 0 then [] else AfterAll(starts[..i], done, raceField, seasonFields))
               + [PlayerAfter(starts[i], records, raceField, seasonFields)]
  {
    assert starts[..i + 1][..i] == starts[..i];
    assert (done + [records])[..i] == done;
  }

  /** Each player's document after the week is `PlayerAfter` of its
      document before. */
  lemma {:induction false} AfterAllAt(starts: seq<Doc>, weeks: seq<seq<Record>>, raceField: string, seasonFields: seq<string>)
    requires |starts| == |weeks|
    ensures |AfterAll(starts, weeks, raceField, seasonFields)| == |starts|
    ensures forall i :: 0 <= i < |starts| ==>
              AfterAll(starts, weeks, raceField, seasonFields)[i] == PlayerAfter(starts[i], weeks[i], raceField, seasonFields)
  {
    if starts != [] {
      var n := |starts| - 1;
      AfterAllAt(starts[..n], weeks[..n], raceField, seasonFields);
    }
  }

  /** The scores log after one more player, when the log before it held
      the writes of the players before. */
  lemma ScoresStep(log: seq<ScoreWrite>, done: seq<seq<Record>>, records: seq<Record>, field: string, first: bool)
    requires first <==> done == []
    ensures var before := if first then log else log + WeekWrites([], done, field);
            before + RecordsWrites(WeekSeen([], done), records, field) == log + WeekWrites([], done + [records], field)
  {
    WeekStep([], done, records, field);
    var writes := RecordsWrites(WeekSeen([], done), records, field);
    if first {
      assert WeekWrites([], done + [records], field) == [] + writes;
    } else {
      assert (log + WeekWrites([], done, field)) + writes == log + (WeekWrites([], done, field) + writes);
    }
  }

  /** Lines 94-190 for one player: the records, the race's fields, then
      `UpdatePlayer` through a reference to the player's document, with
      the intended season total; on an error the `players` and `scores`
      collections are left as they were. */
  method PlayerUpdate(db: Database, name: string,
                      results: Dict<string, seq<Parser.Standing>>, replacements: Dict<string, Dict<string, string>>,
                      fields: Result<(string, seq<string>)>, updated: seq<string>)
    returns (r: Result<seq<Record>>, updated': seq<string>)
    requires name in db.players
    modifies db
    ensures r == PlayerWeek(db.picks, name, results, replacements, fields)
    ensures r.Err? ==> db.players == old(db.players) && db.scores == old(db.scores) && updated' == updated
    ensures r.Ok? ==>
              && db.players == old(db.players)[name := PlayerAfter(old(db.players)[name], r.value,
                                                                   fields.value.0,
                                                                   fields.value.1)]
              && db.scores == old(db.scores) + RecordsWrites(updated, r.value, fields.value.0)
              && updated' == RecordsSeen(updated, r.value)
    ensures db.raceNumber == old(db.raceNumber)
  {
    updated' := updated;
    r := PlayerWeekOf(db, name, results, replacements);
    if r.Err? {
      return;
    }
    if fields.Err? {
      return Err(fields.error), updated;
    }
    var player := new PlayerDoc(db.players[name]);
    updated' := UpdatePlayer(db, player, r.value, fields.value.0, fields.value.1, updated);
    db.players := db.players[name := player.fields];
  }

  /** Distinct names: the `i`-th is none of the ones before it. */
  lemma DistinctAfter(names: seq<string>, i: int)
    requires Distinct(names) && 0 <= i < |names|
    ensures names[i] !in names[..i]
    ensures forall n :: n !in names[..i + 1] ==> n != names[i] && n !in names[..i]
  {
    assert names[..i + 1][i] == names[i];
    assert forall x :: x in names[..i] ==> x in names[..i + 1];
  }

  /** Lines 94-143 for one player: the picks document read into an array,
      then the player's records. */
  method PlayerWeekOf(db: Database, name: string, results: Dict<string, seq<Parser.Standing>>,
                      replacements: Dict<string, Dict<string, string>>)
    returns (r: Result<seq<Record>>)
    ensures PicksOf(db.picks, name).Err? ==> r == Err(PicksOf(db.picks, name).error)
    ensures PicksOf(db.picks, name).Ok? ==>
              r == RecordsFrom(SortByKey(PicksOf(db.picks, name).value), results, replacements, 0, [])
  {
    if name !in db.picks {
      return Err(AttributeError);
    }
    var p := db.picks[name];
    var picks := new PickItem[|p|](i => if 0 <= i < |p| then p[i] else ("", ""));
    assert picks[..] == p;
    r := PlayerRecords(picks, results, replacements);
  }

  /** Lines 214-240 for one player: the bonus rules of each class of the
      final standings, in the order of the standings, each on the
      document the previous class left, with the intended 50-point field
      `BonusField(50)`. */
  function BonusesOf(doc: Doc, picks: seq<PickItem>, standings: Dict<string, seq<string>>): Result<Doc>
    decreases |standings|
  {
    if standings == [] then Ok(doc)
    else
      var n := |standings| - 1;
      match BonusesOf(doc, picks, standings[..n])
      case Err(e) => Err(e)
      case Ok(d) => CategoryBonusOf(d, Riders(SortByKey(picks), standings[n].0), standings[n].1, BonusField(50))
  }

  /** Lines 215-240 for one player: the picks document is read first, so
      a player without one raises `AttributeError` even when there are no
      standings. */
  function PlayerBonusOf(picks: map<string, seq<PickItem>>, name: string, doc: Doc,
                         standings: Dict<string, seq<string>>): Result<Doc>
  {
    match PicksOf(picks, name)
    case Err(e) => Err(e)
    case Ok(p) => BonusesOf(doc, p, standings)
  }

  /** Lines 214-240: the players in stream order, each on the document as
      the earlier players left it; the first error stops the pass. */
  function AllBonuses(players: map<string, Doc>, picks: map<string, seq<PickItem>>, names: seq<string>,
                      standings: Dict<string, seq<string>>): (r: Result<map<string, Doc>>)
    requires forall i :: 0 <= i < |names| ==> names[i] in players
    ensures r.Ok? ==> forall n :: n in r.value <==> n in players
    decreases |names|
  {
    if names == [] then Ok(players)
    else
      var n := |names| - 1;
      match AllBonuses(players, picks, names[..n], standings)
      case Err(e) => Err(e)
      case Ok(m) =>
        match PlayerBonusOf(picks, names[n], m[names[n]], standings)
        case Err(e) => Err(e)
        case Ok(d) => Ok(m[names[n] := d])
  }

  /** Lines 214-240 for one player, whether or not the rules raise: the
      classes in standings order up to the first that raises, with every
      bonus inserted before the error still written. */
  function BonusesDoc(doc: Doc, picks: seq<PickItem>, standings: Dict<string, seq<string>>): (d: Doc)
    ensures BonusesOf(doc, picks, standings).Ok? ==> d == BonusesOf(doc, picks, standings).value
    decreases |standings|
  {
    if standings == [] then doc
    else
      var n := |standings| - 1;
      var front := BonusesOf(doc, picks, standings[..n]);
      if front.Err? then BonusesDoc(doc, picks, standings[..n])
      else CategoryBonusDoc(front.value, Riders(SortByKey(picks), standings[n].0), standings[n].1, BonusField(50))
  }

  /** Lines 215-240 for one player, whether or not they raise: without a
      picks document nothing is written. */
  function PlayerBonusDoc(picks: map<string, seq<PickItem>>, name: string, doc: Doc,
                          standings: Dict<string, seq<string>>): (d: Doc)
    ensures PlayerBonusOf(picks, name, doc, standings).Ok? ==> d == PlayerBonusOf(picks, name, doc, standings).value
    ensures name !in picks ==> d == doc
  {
    if name in picks then BonusesDoc(doc, picks[name], standings) else doc
  }

  /** Lines 214-240, whether or not they raise: the players in stream
      order up to the first whose bonuses raise, that player's document
      with the bonuses inserted before the error, and every later player's
      document untouched. */
  function AllBonusesDocs(players: map<string, Doc>, picks: map<string, seq<PickItem>>, names: seq<string>,
                          standings: Dict<string, seq<string>>): (r: map<string, Doc>)
    requires forall i :: 0 <= i < |names| ==> names[i] in players
    ensures forall n :: n in r <==> n in players
    ensures AllBonuses(players, picks, names, standings).Ok? ==> r == AllBonuses(players, picks, names, standings).value
    decreases |names|
  {
    if names == [] then players
    else
      var n := |names| - 1;
      var front := AllBonuses(players, picks, names[..n], standings);
      if front.Err? then AllBonusesDocs(players, picks, names[..n], standings)
      else front.value[names[n] := PlayerBonusDoc(picks, names[n], front.value[names[n]], standings)]
  }

  /** A player's bonus rules, whether or not they raise, raise only the
      two bonus fields. */
  lemma {:induction false} BonusesDocOnly(doc: Doc, picks: seq<PickItem>, standings: Dict<string, seq<string>>)
    ensures BonusOnly(doc, BonusesDoc(doc, picks, standings))
    decreases |standings|
  {
    if standings != [] {
      var n := |standings| - 1;
      var front := BonusesOf(doc, picks, standings[..n]);
      if front.Err? {
        BonusesDocOnly(doc, picks, standings[..n]);
      } else {
        BonusesOnly(doc, picks, standings[..n]);
        CategoryBonusDocOnly(front.value, Riders(SortByKey(picks), standings[n].0), standings[n].1);
        BonusOnlyTrans(doc, front.value, BonusesDoc(doc, picks, standings));
      }
    }
  }

  /** The bonus pass, whether or not it raises, raises only the bonus
      fields of the streamed players and leaves every other document as
      it was. */
  lemma {:induction false} AllBonusesDocsOnly(players: map<string, Doc>, picks: map<string, seq<PickItem>>,
                                              names: seq<string>, standings: Dict<string, seq<string>>)
    requires forall i :: 0 <= i < |names| ==> names[i] in players
    ensures forall n :: n in players ==> BonusOnly(players[n], AllBonusesDocs(players, picks, names, standings)[n])
    ensures forall n :: n in players && n !in names ==> AllBonusesDocs(players, picks, names, standings)[n] == players[n]
    decreases |names|
  {
    if names != [] {
      var last := |names| - 1;
      var front := names[..last];
      var r := AllBonusesDocs(players, picks, names, standings);
      if AllBonuses(players, picks, front, standings).Err? {
        AllBonusesDocsOnly(players, picks, front, standings);
        forall n | n in players && n !in names ensures r[n] == players[n] {
          assert n !in front;
        }
      } else {
        AllBonusesOnly(players, picks, front, standings);
        var m := AllBonuses(players, picks, front, standings).value;
        var name := names[last];
        if name in picks {
          BonusesDocOnly(m[name], picks[name], standings);
        }
        forall n | n in players
          ensures BonusOnly(players[n], r[n])
          ensures n !in names ==> r[n] == players[n]
        {
          if n == name {
            BonusOnlyTrans(players[n], m[n], r[n]);
          } else if n !in names {
            assert n !in front;
          }
        }
      }
    }
  }

  /** Every class of the standings lists at least as many riders as the
      player picked for it. */
  predicate StandingsCover(picks: seq<PickItem>, standings: Dict<string, seq<string>>) {
    forall i :: 0 <= i < |standings| ==> |Riders(SortByKey(picks), standings[i].0)| <= |standings[i].1|
  }

  /** A player's bonuses, when they succeed, raise only the two bonus
      fields. */
  lemma {:induction false} BonusesOnly(doc: Doc, picks: seq<PickItem>, standings: Dict<string, seq<string>>)
    requires BonusesOf(doc, picks, standings).Ok?
    ensures BonusOnly(doc, BonusesOf(doc, picks, standings).value)
    decreases |standings|
  {
    if standings != [] {
      var n := |standings| - 1;
      BonusesOnly(doc, picks, standings[..n]);
      var d := BonusesOf(doc, picks, standings[..n]).value;
      CategoryBonusOnly(d, Riders(SortByKey(picks), standings[n].0), standings[n].1);
      BonusOnlyTrans(doc, d, BonusesOf(doc, picks, standings).value);
    }
  }

  /** On a document holding both bonus fields, a player's bonuses fail
      exactly when some class of the standings is shorter than the
      player's picks for it, and then with `IndexError`. */
  lemma {:induction false} BonusesOk(doc: Doc, picks: seq<PickItem>, standings: Dict<string, seq<string>>)
    requires Get(doc, BonusField(50)).Some? && Get(doc, BonusField(10)).Some?
    ensures BonusesOf(doc, picks, standings).Ok? <==> StandingsCover(picks, standings)
    ensures BonusesOf(doc, picks, standings).Err? ==> BonusesOf(doc, picks, standings).error == IndexError
    decreases |standings|
  {
    if standings != [] {
      var n := |standings| - 1;
      var front := standings[..n];
      BonusesOk(doc, picks, front);
      assert StandingsCover(picks, standings) <==>
               StandingsCover(picks, front) && |Riders(SortByKey(picks), standings[n].0)| <= |standings[n].1| by {
        assert forall i :: 0 <= i < n ==> front[i] == standings[i];
      }
      if BonusesOf(doc, picks, front).Ok? {
        var d := BonusesOf(doc, picks, front).value;
        BonusesOnly(doc, picks, front);
        CategoryBonusFails(d, Riders(SortByKey(picks), standings[n].0), standings[n].1);
      }
    }
  }

  /** The bonus pass, when it succeeds, raises only the bonus fields of
      the streamed players and leaves every other document as it was. */
  lemma {:induction false} AllBonusesOnly(players: map<string, Doc>, picks: map<string, seq<PickItem>>,
                                          names: seq<string>, standings: Dict<string, seq<string>>)
    requires forall i :: 0 <= i < |names| ==> names[i] in players
    requires AllBonuses(players, picks, names, standings).Ok?
    ensures forall n :: n in players ==> BonusOnly(players[n], AllBonuses(players, picks, names, standings).value[n])
    ensures forall n :: n in players && n !in names ==> AllBonuses(players, picks, names, standings).value[n] == players[n]
    decreases |names|
  {
    if names != [] {
      var last := |names| - 1;
      var front := names[..last];
      AllBonusesOnly(players, picks, front, standings);
      var m := AllBonuses(players, picks, front, standings).value;
      var r := AllBonuses(players, picks, names, standings).value;
      var d := PlayerBonusOf(picks, names[last], m[names[last]], standings).value;
      BonusesOnly(m[names[last]], picks[names[last]], standings);
      forall n | n in players
        ensures BonusOnly(players[n], r[n])
        ensures n !in names ==> r[n] == players[n]
      {
        if n == names[last] {
          BonusOnlyTrans(players[n], m[n], r[n]);
        } else if n !in names {
          assert n !in front;
        }
      }
    }
  }

  /** Every streamed player has a picks document covered by the
      standings. */
  predicate PlayersFit(picks: map<string, seq<PickItem>>, names: seq<string>, standings: Dict<string, seq<string>>) {
    forall i :: 0 <= i < |names| ==> names[i] in picks && StandingsCover(picks[names[i]], standings)
  }

  /** `PlayersFit` for one more player. */
  lemma PlayersFitStep(picks: map<string, seq<PickItem>>, names: seq<string>, standings: Dict<string, seq<string>>)
    requires names != []
    ensures var n := |names| - 1;
            PlayersFit(picks, names, standings) <==>
              PlayersFit(picks, names[..n], standings) && names[n] in picks && StandingsCover(picks[names[n]], standings)
  {
    var n := |names| - 1;
    assert forall i :: 0 <= i < n ==> names[..n][i] == names[i];
  }

  /** When every player's document holds both bonus fields, the bonus
      pass fails exactly when a streamed player has no picks document or
      picked more riders for a class than its standings list; the first
      such player's error is the pass's error. */
  lemma {:induction false} AllBonusesOk(players: map<string, Doc>, picks: map<string, seq<PickItem>>,
                                        names: seq<string>, standings: Dict<string, seq<string>>)
    requires forall i :: 0 <= i < |names| ==> names[i] in players
    requires forall n :: n in players ==> Get(players[n], BonusField(50)).Some? && Get(players[n], BonusField(10)).Some?
    ensures AllBonuses(players, picks, names, standings).Ok? <==> PlayersFit(picks, names, standings)
    decreases |names|
  {
    if names != [] {
      var last := |names| - 1;
      var front := names[..last];
      AllBonusesOk(players, picks, front, standings);
      var name := names[last];
      PlayersFitStep(picks, names, standings);
      if AllBonuses(players, picks, front, standings).Ok? {
        var m := AllBonuses(players, picks, front, standings).value;
        AllBonusesOnly(players, picks, front, standings);
        assert BonusOnly(players[name], m[name]);
        if name in picks {
          BonusesOk(m[name], picks[name], standings);
          assert AllBonuses(players, picks, names, standings).Ok? <==> BonusesOf(m[name], picks[name], standings).Ok?;
        } else {
          assert AllBonuses(players, picks, names, standings).Err?;
        }
      } else {
        assert AllBonuses(players, picks, names, standings).Err?;
      }
    }
  }

  /** Lines 215-240 for one player: the picks document is read into a
      list, then the bonus rules of each class are applied to the player's
      document. Each bonus is written as it is inserted (line 255), so the
      bonuses inserted before an error stay in the collection. */
  method PlayerBonus(db: Database, name: string, standings: Dict<string, seq<string>>) returns (err: Option<Error>)
    requires name in db.players
    modifies db
    ensures match PlayerBonusOf(db.picks, name, old(db.players[name]), standings)
            case Ok(d) => err == None && db.players == old(db.players)[name := d]
            case Err(e) => err == Some(e)
    ensures db.players == old(db.players)[name := PlayerBonusDoc(db.picks, name, old(db.players[name]), standings)]
    ensures db.scores == old(db.scores) && db.raceNumber == old(db.raceNumber)
  {
    if name !in db.picks {
      return Some(AttributeError);
    }
    var p := db.picks[name];
    var picks := new PickItem[|p|](i => if 0 <= i < |p| then p[i] else ("", ""));
    assert picks[..] == p;
    var player := new PlayerDoc(db.players[name]);
    err := ClassBonuses(player, picks, standings);
    db.players := db.players[name := player.fields];
  }

  /** Lines 219-240 for each class of the standings in turn: the class's
      picks from `_get_category_picks`, which sorts the list in place
      every time, then the class's bonus rules on the player's document. */
  method ClassBonuses(player: PlayerDoc, picks: array<PickItem>, standings: Dict<string, seq<string>>)
    returns (err: Option<Error>)
    modifies player, picks
    ensures match BonusesOf(old(player.fields), old(picks[..]), standings)
            case Ok(d) => err == None && player.fields == d
            case Err(e) => err == Some(e)
    ensures player.fields == BonusesDoc(old(player.fields), old(picks[..]), standings)
  {
    ghost var p := picks[..];
    SortByKeySpec(p);
    SortByKeySorted(SortByKey(p));
    ghost var doc := player.fields;
    for k := 0 to |standings|
      invariant BonusesOf(doc, p, standings[..k]) == Ok(player.fields)
      invariant picks[..] == if k == 0 then p else SortByKey(p)
    {
      BonusesStep(doc, p, standings, k, player.fields);
      var category := standings[k].0;
      var playerPicks := GetCategoryPicks(category, picks);
      assert playerPicks == Riders(SortByKey(p), category);
      err := CategoryBonus(player, playerPicks, standings[k].1);
      if err.Some? {
        BonusesErr(doc, p, standings, k + 1);
        BonusesDocErr(doc, p, standings, k + 1);
        assert standings[..k + 1][..k] == standings[..k];
        return;
      }
    }
    assert standings[..|standings|] == standings;
    err := None;
  }

  /** The bonuses of one more class. */
  lemma BonusesStep(doc: Doc, picks: seq<PickItem>, standings: Dict<string, seq<string>>, k: nat, d: Doc)
    requires k < |standings| && BonusesOf(doc, picks, standings[..k]) == Ok(d)
    ensures BonusesOf(doc, picks, standings[..k + 1])
            == CategoryBonusOf(d, Riders(SortByKey(picks), standings[k].0), standings[k].1, BonusField(50))
  {
    assert standings[..k + 1][..k] == standings[..k];
  }

  /** An error of the first classes is the error of the whole standings. */
  lemma {:induction false} BonusesErr(doc: Doc, picks: seq<PickItem>, standings: Dict<string, seq<string>>, k: nat)
    requires k <= |standings| && BonusesOf(doc, picks, standings[..k]).Err?
    ensures BonusesOf(doc, picks, standings) == BonusesOf(doc, picks, standings[..k])
    decreases |standings| - k
  {
    if k < |standings| {
      assert standings[..k + 1][..k] == standings[..k];
      BonusesErr(doc, picks, standings, k + 1);
    } else {
      assert standings[..k] == standings;
    }
  }

  /** Once the first classes raise, the document is as they left it. */
  lemma {:induction false} BonusesDocErr(doc: Doc, picks: seq<PickItem>, standings: Dict<string, seq<string>>, k: nat)
    requires k <= |standings| && BonusesOf(doc, picks, standings[..k]).Err?
    ensures BonusesDoc(doc, picks, standings) == BonusesDoc(doc, picks, standings[..k])
    decreases |standings| - k
  {
    if k < |standings| {
      assert standings[..k + 1][..k] == standings[..k];
      BonusesErr(doc, picks, standings[..k + 1], k);
      BonusesDocErr(doc, picks, standings, k + 1);
    } else {
      assert standings[..k] == standings;
    }
  }

  /** `_calculate_bonus_points` (lines 198-240): the bonuses of every
      streamed player in turn; the first error stops the pass. The final
      standings (scraped in lines 207-214) are a parameter: each class's
      riders in championship order. Bonuses go to the intended fields
      (`BonusField`), not to the misspelt one of line 252. */
  method CalculateBonusPoints(db: Database, names: seq<string>, standings: Dict<string, seq<string>>)
    returns (err: Option<Error>)
    requires forall i :: 0 <= i < |names| ==> names[i] in db.players
    modifies db
    ensures forall n :: n in db.players <==> n in old(db.players)
    ensures match AllBonuses(old(db.players), db.picks, names, standings)
            case Ok(m) => err == None && db.players == m
            case Err(e) => err == Some(e)
    ensures db.players == AllBonusesDocs(old(db.players), db.picks, names, standings)
    ensures db.scores == old(db.scores) && db.raceNumber == old(db.raceNumber)
  {
    ghost var start := db.players;
    for i := 0 to |names|
      invariant AllBonuses(start, db.picks, names[..i], standings) == Ok(db.players)
      invariant forall n :: n in db.players <==> n in start
      invariant db.scores == old(db.scores) && db.raceNumber == old(db.raceNumber)
    {
      assert names[..i + 1][..i] == names[..i];
      err := PlayerBonus(db, names[i], standings);
      if err.Some? {
        AllBonusesErr(start, db.picks, names, standings, i + 1);
        AllBonusesDocsErr(start, db.picks, names, standings, i + 1);
        return;
      }
    }
    assert names[..|names|] == names;
    err := None;
  }

  /** An error of the first players is the error of the whole pass. */
  lemma {:induction false} AllBonusesErr(players: map<string, Doc>, picks: map<string, seq<PickItem>>,
                                         names: seq<string>, standings: Dict<string, seq<string>>, k: nat)
    requires forall i :: 0 <= i < |names| ==> names[i] in players
    requires k <= |names| && AllBonuses(players, picks, names[..k], standings).Err?
    ensures AllBonuses(players, picks, names, standings) == AllBonuses(players, picks, names[..k], standings)
    decreases |names| - k
  {
    if k < |names| {
      assert names[..k + 1][..k] == names[..k];
      AllBonusesErr(players, picks, names, standings, k + 1);
    } else {
      assert names[..k] == names;
    }
  }

  /** Once the first players' bonuses raise, the collection is as they
      left it. */
  lemma {:induction false} AllBonusesDocsErr(players: map<string, Doc>, picks: map<string, seq<PickItem>>,
                                             names: seq<string>, standings: Dict<string, seq<string>>, k: nat)
    requires forall i :: 0 <= i < |names| ==> names[i] in players
    requires k <= |names| && AllBonuses(players, picks, names[..k], standings).Err?
    ensures AllBonusesDocs(players, picks, names, standings) == AllBonusesDocs(players, picks, names[..k], standings)
    decreases |names| - k
  {
    if k < |names| {
      assert names[..k + 1][..k] == names[..k];
      AllBonusesErr(players, picks, names[..k + 1], standings, k);
      AllBonusesDocsErr(players, picks, names, standings, k + 1);
    } else {
      assert names[..k] == names;
    }
  }

  /** `update_points` (lines 59-196). The race's code is looked up first
      (line 71), so an unknown race number raises `KeyError` before
      anything is written; then every streamed player's week is written,
      then after the final race the bonuses; the race number is recorded
      last, so only an update that raised nothing records it. The scraped
      results, the replacement tables, the final standings and the
      contents of race_names.json are parameters. */
  method UpdatePoints(db: Database, names: seq<string>, raceNum: int, results: Dict<string, seq<Parser.Standing>>,
                      replacements: Dict<string, Dict<string, string>>, raceNames: Dict<string, string>,
                      finalRace: bool, standings: Dict<string, seq<string>>)
    returns (err: Option<Error>)
    requires Distinct(names) && forall i :: 0 <= i < |names| ==> names[i] in db.players
    modifies db
    ensures forall n :: n in db.players <==> n in old(db.players)
    ensures RaceCode(raceNum).None? ==> err == Some(KeyError) && db.players == old(db.players) && db.scores == old(db.scores)
    ensures var week := WeekRecords(db.picks, names, results, replacements, RaceFields(raceNum, raceNames));
            RaceCode(raceNum).Some? && week.Err? ==> err == Some(week.error)
    ensures !finalRace ==>
              (err.None? <==> RaceCode(raceNum).Some? &&
                              WeekRecords(db.picks, names, results, replacements, RaceFields(raceNum, raceNames)).Ok?)
    ensures db.raceNumber == if err.None? then raceNum else old(db.raceNumber)
    ensures err.None? && names != [] ==>
              var week := WeekRecords(db.picks, names, results, replacements, RaceFields(raceNum, raceNames)).value;
              var fields := RaceFields(raceNum, raceNames).value;
              && db.scores == old(db.scores) + WeekWrites([], week, fields.0)
              && forall i :: 0 <= i < |names| ==>
                   var after := PlayerAfter(old(db.players)[names[i]], week[i], fields.0, fields.1);
                   if finalRace then BonusOnly(after, db.players[names[i]]) else db.players[names[i]] == after
    ensures err.None? && names == [] ==> db.scores == old(db.scores)
    ensures var fields := RaceFields(raceNum, raceNames);
            var week := WeekRecords(db.picks, names, results, replacements, fields);
            RaceCode(raceNum).Some? && week.Ok? ==>
              var after := WeekPlayers(old(db.players), names, week.value, fields);
              if finalRace then
                match AllBonuses(after, db.picks, names, standings)
                case Ok(m) => err == None && db.players == m
                case Err(e) => err == Some(e)
              else err == None && db.players == after
    ensures var fields := RaceFields(raceNum, raceNames);
            var week := WeekRecords(db.picks, names, results, replacements, fields);
            var done := WeekDone(db.picks, names, results, replacements, fields);
            RaceCode(raceNum).Some? && week.Err? ==>
              && db.players == WeekPlayers(old(db.players), names[..|done|], done, fields)
              && (done != [] ==> fields.Ok? && db.scores == old(db.scores) + WeekWrites([], done, fields.value.0))
              && (done == [] ==> db.scores == old(db.scores))
    ensures var fields := RaceFields(raceNum, raceNames);
            var week := WeekRecords(db.picks, names, results, replacements, fields);
            RaceCode(raceNum).Some? && week.Ok? && finalRace ==>
              && db.players == AllBonusesDocs(WeekPlayers(old(db.players), names, week.value, fields), db.picks, names, standings)
              && (names != [] ==> fields.Ok? && db.scores == old(db.scores) + WeekWrites([], week.value, fields.value.0))
  {
    if RaceCode(raceNum).None? {
      return Some(KeyError);
    }
    var fields := RaceFields(raceNum, raceNames);
    err := UpdateWeek(db, names, results, replacements, fields);
    if err.Some? {
      return;
    }
    ghost var mid := db.players;
    ghost var week := WeekRecords(db.picks, names, results, replacements, fields);
    WeekPlayersIs(old(db.players), mid, names, week.value, fields);
    err := FinishUpdate(db, names, raceNum, finalRace, standings);
    if err.None? && names != [] {
      WeekThenBonus(old(db.players), mid, db.players, names, week.value, fields.value.0, fields.value.1, finalRace);
    }
  }

  /** Lines 192-196: the bonuses after the final race, then the race
      number recorded when nothing raised. */
  method FinishUpdate(db: Database, names: seq<string>, raceNum: int, finalRace: bool,
                      standings: Dict<string, seq<string>>)
    returns (err: Option<Error>)
    requires forall i :: 0 <= i < |names| ==> names[i] in db.players
    modifies db
    ensures forall n :: n in db.players <==> n in old(db.players)
    ensures finalRace ==> match AllBonuses(old(db.players), db.picks, names, standings)
                          case Ok(m) => err == None && db.players == m
                          case Err(e) => err == Some(e)
    ensures finalRace ==> db.players == AllBonusesDocs(old(db.players), db.picks, names, standings)
    ensures !finalRace ==> err == None && db.players == old(db.players)
    ensures err.None? && finalRace ==> forall n :: n in old(db.players) ==> BonusOnly(old(db.players)[n], db.players[n])
    ensures db.scores == old(db.scores)
    ensures db.raceNumber == if err.None? then raceNum else old(db.raceNumber)
  {
    if finalRace {
      ghost var week := db.players;
      err := CalculateBonusPoints(db, names, standings);
      if err.Some? {
        return;
      }
      AllBonusesOnly(week, db.picks, names, standings);
    }
    db.raceNumber := raceNum;
    err := None;
  }

  /** Each streamed player's document after the week, then after the
      bonuses when there are any. */
  lemma WeekThenBonus(start: map<string, Doc>, mid: map<string, Doc>, final: map<string, Doc>, names: seq<string>,
                      week: seq<seq<Record>>, raceField: string, seasonFields: seq<string>, finalRace: bool)
    requires |week| == |names| && forall i :: 0 <= i < |names| ==> names[i] in start && names[i] in mid
    requires forall i :: 0 <= i < |names| ==> mid[names[i]] == PlayerAfter(start[names[i]], week[i], raceField, seasonFields)
    requires forall n :: n in final <==> n in mid
    requires finalRace ==> forall n :: n in mid ==> BonusOnly(mid[n], final[n])
    requires !finalRace ==> final == mid
    ensures forall i :: 0 <= i < |names| ==>
              var after := PlayerAfter(start[names[i]], week[i], raceField, seasonFields);
              if finalRace then BonusOnly(after, final[names[i]]) else final[names[i]] == after
  {
  }
}
