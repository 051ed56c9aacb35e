/** The category loop of `update_points` in
    points_calculator/fdb_points_keeper.py (lines 99-143): for one player,
    one record of rider points per class, the MotoGP sprint added onto the
    MotoGP race and only the combined record kept. */
module Records {
  import opened Wrappers
  import opened Dicts
  import opened Scoring
  import Parser

  /** The categories, in the order the loop visits them. */
  const Categories: seq<string> := ["motogp", "motogp_sprint", "moto2", "moto3"]

  /** One appended `points_store`: the points of each picked rider, and the
      class it is labelled with (the source keeps the label under the key
      `"category"`, written after the riders). */
  datatype Record = Record(points: Dict<string, real>, category: string)

  /** The sprint's record is labelled as the MotoGP class. */
  function Label(category: string): string {
    if category == "motogp_sprint" then "motogp" else category
  }

  /** The riders a player picked for a category, from the sorted picks. */
  function Riders(sorted: seq<PickItem>, category: string): seq<string> {
    Chosen(PickCategory(category), sorted)
  }

  /** How each rider picked for a category scores: `RiderPoints` against
      the category's results and replacement table, or nothing when either
      is missing. */
  function PointsFor(riders: seq<string>, results: Dict<string, seq<Parser.Standing>>,
                     replacements: Dict<string, Dict<string, string>>, category: string): Option<string -> Result<real>>
  {
    match Get(replacements, category)
    case None => None
    case Some(repl) =>
      match Get(results, category)
      case None => None
      case Some(rows) => Some(Scorer(rows, repl, riders))
  }

  /** One category's pass over the riders picked for it (lines 101-136):
      `KeyError` when the category has no replacement table or no results;
      otherwise the riders scored into `start`. */
  function Pass(riders: seq<string>, results: Dict<string, seq<Parser.Standing>>,
                replacements: Dict<string, Dict<string, string>>, category: string,
                start: Dict<string, real>, sprint: bool): Result<Dict<string, real>>
  {
    match PointsFor(riders, results, replacements, category)
    case None => Err(KeyError)
    case Some(points) => Scored(start, sprint, riders, PointsOf(points, riders), |riders|)
  }

  /** The records of the categories from the `k`-th on, the store of the
      previous category being `store`; the MotoGP race's store is passed on
      to the sprint and not kept. */
  function RecordsFrom(sorted: seq<PickItem>, results: Dict<string, seq<Parser.Standing>>,
                       replacements: Dict<string, Dict<string, string>>, k: nat,
                       store: Dict<string, real>): Result<seq<Record>>
    requires k <= |Categories|
    decreases |Categories| - k
  {
    if k == |Categories| then Ok([])
    else
      var category := Categories[k];
      var sprint := category == "motogp_sprint";
      match Pass(Riders(sorted, category), results, replacements, category, if sprint then store else [], sprint)
      case Err(e) => Err(e)
      case Ok(s) =>
        if category == "motogp" then RecordsFrom(sorted, results, replacements, k + 1, s)
        else Prepend([Record(s, Label(category))], RecordsFrom(sorted, results, replacements, k + 1, s))
  }

  /** One category of `RecordsFrom`: the pass's error, or the pass's store
      kept (unless it is the MotoGP race) and passed on. */
  lemma RecordsFromStep(sorted: seq<PickItem>, results: Dict<string, seq<Parser.Standing>>,
                        replacements: Dict<string, Dict<string, string>>, k: nat, store: Dict<string, real>)
    requires k < |Categories|
    ensures var sprint := Categories[k] == "motogp_sprint";
            var p := Pass(Riders(sorted, Categories[k]), results, replacements, Categories[k], if sprint then store else [], sprint);
            RecordsFrom(sorted, results, replacements, k, store) ==
              if p.Err? then Err(p.error)
              else if Categories[k] == "motogp" then RecordsFrom(sorted, results, replacements, k + 1, p.value)
              else Prepend([Record(p.value, Label(Categories[k]))], RecordsFrom(sorted, results, replacements, k + 1, p.value))
  {
  }

  /** One category of the loop (lines 101-136): looks the category's
      replacement table and results up, sorts the picks in place and takes
      the category's riders, starts a fresh store unless it is the sprint,
      and scores the riders. */
  method CategoryPass(category: string, picks: array<PickItem>, results: Dict<string, seq<Parser.Standing>>,
                      replacements: Dict<string, Dict<string, string>>, pointsStore: Dict<string, real>)
      returns (scored: Result<Dict<string, real>>)
    modifies picks
    ensures var sprint := category == "motogp_sprint";
            scored == Pass(Riders(SortByKey(old(picks[..])), category), results, replacements, category,
                           if sprint then pointsStore else [], sprint)
    ensures picks[..] == SortByKey(old(picks[..])) || (scored.Err? && picks[..] == old(picks[..]))
  {
    var repl := Get(replacements, category);
    if repl.None? {
      return Err(KeyError);
    }
    var points := Get(results, category);
    if points.None? {
      return Err(KeyError);
    }
    var playerPicks := GetCategoryPicks(category, picks);
    var start := if category != "motogp_sprint" then [] else pointsStore;
    scored := ScoreCategory(start, category, playerPicks, Scorer(points.value, repl.value, playerPicks));
  }

  /** The loop over the categories: every store but the MotoGP race's is
      appended with its label, and the first error ends the loop. */
  method PlayerRecords(picks: array<PickItem>, results: Dict<string, seq<Parser.Standing>>,
                       replacements: Dict<string, Dict<string, string>>)
      returns (r: Result<seq<Record>>)
    modifies picks
    ensures r == RecordsFrom(SortByKey(old(picks[..])), results, replacements, 0, [])
    ensures picks[..] == SortByKey(old(picks[..])) || (r.Err? && picks[..] == old(picks[..]))
  {
    ghost var sorted := SortByKey(picks[..]);
    SortByKeySpec(picks[..]);
    SortByKeySorted(sorted);
    var allPoints: seq<Record> := [];
    var pointsStore: Dict<string, real> := [];
    PrependAssoc([], [], RecordsFrom(sorted, results, replacements, 0, []));
    for k := 0 to |Categories|
      invariant picks[..] == sorted || (k == 0 && picks[..] == old(picks[..]))
      invariant RecordsFrom(sorted, results, replacements, 0, []) ==
                Prepend(allPoints, RecordsFrom(sorted, results, replacements, k, pointsStore))
    {
      var category := Categories[k];
      RecordsFromStep(sorted, results, replacements, k, pointsStore);
      assert SortByKey(picks[..]) == sorted;
      var scored := CategoryPass(category, picks, results, replacements, pointsStore);
      if scored.Err? {
        return Err(scored.error);
      }
      pointsStore := scored.value;
      if category != "motogp" {
        PrependAssoc(allPoints, [Record(pointsStore, Label(category))],
                     RecordsFrom(sorted, results, replacements, k + 1, pointsStore));
        allPoints := allPoints + [Record(pointsStore, Label(category))];
      }
    }
    assert RecordsFrom(sorted, results, replacements, |Categories|, pointsStore) == Ok([]);
    assert allPoints + [] == allPoints;
    return Ok(allPoints);
  }

  /** A category's pass can go ahead: it has a replacement table and
      results, and every rider picked for it can be scored. */
  predicate Ready(riders: seq<string>, results: Dict<string, seq<Parser.Standing>>,
                  replacements: Dict<string, Dict<string, string>>, category: string)
  {
    && PointsFor(riders, results, replacements, category).Some?
    && Scorable(PointsOf(PointsFor(riders, results, replacements, category).value, riders))
  }

  /** Every category's pass can go ahead. */
  predicate AllReady(sorted: seq<PickItem>, results: Dict<string, seq<Parser.Standing>>,
                     replacements: Dict<string, Dict<string, string>>)
  {
    forall k :: 0 <= k < |Categories| ==> Ready(Riders(sorted, Categories[k]), results, replacements, Categories[k])
  }

  /** A pass that succeeds could score every picked rider. */
  lemma {:induction false} ScoredAllOk<K>(store: Dict<K, real>, sprint: bool, picks: seq<K>, pts: seq<Result<real>>,
                                       n: nat, j: nat)
    requires j < n <= |picks| == |pts| && Scored(store, sprint, picks, pts, n).Ok?
    ensures pts[j].Ok?
  {
    var prev := Scored(store, sprint, picks, pts, n - 1);
    assert prev.Ok?;
    if j < n - 1 {
      ScoredAllOk(store, sprint, picks, pts, n - 1, j);
    } else {
      assert StoredValue(prev.value, sprint, picks[n - 1], pts[n - 1]).Ok?;
    }
  }

  /** A pass succeeds only when its category was ready. */
  lemma PassReady(riders: seq<string>, results: Dict<string, seq<Parser.Standing>>,
                  replacements: Dict<string, Dict<string, string>>, category: string, start: Dict<string, real>,
                  sprint: bool)
    requires Pass(riders, results, replacements, category, start, sprint).Ok?
    ensures Ready(riders, results, replacements, category)
  {
    var pts := PointsOf(PointsFor(riders, results, replacements, category).value, riders);
    forall j | 0 <= j < |pts| ensures pts[j].Ok? {
      ScoredAllOk(start, sprint, riders, pts, |riders|, j);
    }
  }

  /** A race pass of a category whose riders all score under `points`
      succeeds, each picked rider holding its points and any other key what
      it held before. */
  lemma RacePass(riders: seq<string>, results: Dict<string, seq<Parser.Standing>>,
                 replacements: Dict<string, Dict<string, string>>, category: string, start: Dict<string, real>,
                 points: string -> Result<real>, rider: string)
    requires PointsFor(riders, results, replacements, category) == Some(points)
    requires Scorable(PointsOf(points, riders)) && IsDict(start)
    ensures Pass(riders, results, replacements, category, start, false).Ok?
    ensures IsDict(Pass(riders, results, replacements, category, start, false).value)
    ensures rider in riders ==> points(rider).Ok?
    ensures Get(Pass(riders, results, replacements, category, start, false).value, rider) ==
              if rider in riders then Some(points(rider).value) else Get(start, rider)
  {
    ScoreRaceSpec(start, riders, points, rider);
  }

  /** A sprint pass of a category whose riders all score under `points`,
      over distinct riders that the store already holds, succeeds, adding
      each picked rider's sprint points onto what it held. */
  lemma SprintPass(riders: seq<string>, results: Dict<string, seq<Parser.Standing>>,
                   replacements: Dict<string, Dict<string, string>>, category: string, store: Dict<string, real>,
                   points: string -> Result<real>, rider: string)
    requires PointsFor(riders, results, replacements, category) == Some(points)
    requires Scorable(PointsOf(points, riders)) && IsDict(store) && Distinct(riders)
    requires forall j :: 0 <= j < |riders| ==> Get(store, riders[j]).Some?
    ensures Pass(riders, results, replacements, category, store, true).Ok?
    ensures IsDict(Pass(riders, results, replacements, category, store, true).value)
    ensures rider in riders ==> points(rider).Ok? && Get(store, rider).Some?
    ensures Get(Pass(riders, results, replacements, category, store, true).value, rider) ==
              if rider in riders then Some(Get(store, rider).value + points(rider).value) else Get(store, rider)
  {
    ScoreSprintSpec(store, riders, points, rider);
  }

  /** The sprint after a race pass over the same riders never misses a
      rider in the store: it fails only when its own category is not
      ready. */
  lemma SprintAfterRace(riders: seq<string>, results: Dict<string, seq<Parser.Standing>>,
                        replacements: Dict<string, Dict<string, string>>)
    requires Ready(riders, results, replacements, "motogp") && Ready(riders, results, replacements, "motogp_sprint")
    ensures Pass(riders, results, replacements, "motogp", [], false).Ok?
    ensures Pass(riders, results, replacements, "motogp_sprint",
                 Pass(riders, results, replacements, "motogp", [], false).value, true).Ok?
  {
    var race := PointsFor(riders, results, replacements, "motogp").value;
    var sprint := PointsFor(riders, results, replacements, "motogp_sprint").value;
    RacePass(riders, results, replacements, "motogp", [], race, "");
    var s := Pass(riders, results, replacements, "motogp", [], false).value;
    forall j | 0 <= j < |riders| ensures Get(s, riders[j]).Some? {
      RacePass(riders, results, replacements, "motogp", [], race, riders[j]);
    }
    ScoreSprintOk(s, riders, PointsOf(sprint, riders), |riders|, "");
  }

  /** The sprint reads the riders picked for MotoGP. */
  lemma SprintRiders(sorted: seq<PickItem>)
    ensures Riders(sorted, "motogp_sprint") == Riders(sorted, "motogp")
  {
  }

  /** Each of the four passes succeeds. */
  predicate AllPassed(sorted: seq<PickItem>, results: Dict<string, seq<Parser.Standing>>,
                      replacements: Dict<string, Dict<string, string>>)
  {
    var gp := Riders(sorted, "motogp");
    && Pass(gp, results, replacements, "motogp", [], false).Ok?
    && Pass(gp, results, replacements, "motogp_sprint", Pass(gp, results, replacements, "motogp", [], false).value, true).Ok?
    && Pass(Riders(sorted, "moto2"), results, replacements, "moto2", [], false).Ok?
    && Pass(Riders(sorted, "moto3"), results, replacements, "moto3", [], false).Ok?
  }

  /** The loop succeeds only when each of its passes does. */
  lemma RecordsPassed(sorted: seq<PickItem>, results: Dict<string, seq<Parser.Standing>>,
                      replacements: Dict<string, Dict<string, string>>)
    requires RecordsFrom(sorted, results, replacements, 0, []).Ok?
    ensures AllPassed(sorted, results, replacements)
  {
    var gp := Riders(sorted, "motogp");
    SprintRiders(sorted);
    assert Categories[0] == "motogp" && Categories[1] == "motogp_sprint";
    assert Categories[2] == "moto2" && Categories[3] == "moto3";
    RecordsFromStep(sorted, results, replacements, 0, []);
    var p0 := Pass(gp, results, replacements, "motogp", [], false);
    assert p0.Ok?;
    RecordsFromStep(sorted, results, replacements, 1, p0.value);
    var p1 := Pass(gp, results, replacements, "motogp_sprint", p0.value, true);
    assert p1.Ok?;
    RecordsFromStep(sorted, results, replacements, 2, p1.value);
    var p2 := Pass(Riders(sorted, "moto2"), results, replacements, "moto2", [], false);
    assert p2.Ok?;
    RecordsFromStep(sorted, results, replacements, 3, p2.value);
  }

  /** Every category ready, every pass succeeds. */
  lemma ReadyPassed(sorted: seq<PickItem>, results: Dict<string, seq<Parser.Standing>>,
                    replacements: Dict<string, Dict<string, string>>)
    requires AllReady(sorted, results, replacements)
    ensures AllPassed(sorted, results, replacements)
  {
    var gp := Riders(sorted, "motogp");
    var m2 := Riders(sorted, "moto2");
    var m3 := Riders(sorted, "moto3");
    SprintRiders(sorted);
    assert Ready(Riders(sorted, Categories[0]), results, replacements, Categories[0]);
    assert Ready(Riders(sorted, Categories[1]), results, replacements, Categories[1]);
    assert Ready(Riders(sorted, Categories[2]), results, replacements, Categories[2]);
    assert Ready(Riders(sorted, Categories[3]), results, replacements, Categories[3]);
    SprintAfterRace(gp, results, replacements);
    RacePass(m2, results, replacements, "moto2", [], PointsFor(m2, results, replacements, "moto2").value, "");
    RacePass(m3, results, replacements, "moto3", [], PointsFor(m3, results, replacements, "moto3").value, "");
  }

  /** Every pass succeeding, every category was ready. */
  lemma PassedReady(sorted: seq<PickItem>, results: Dict<string, seq<Parser.Standing>>,
                    replacements: Dict<string, Dict<string, string>>)
    requires AllPassed(sorted, results, replacements)
    ensures AllReady(sorted, results, replacements)
  {
    var gp := Riders(sorted, "motogp");
    SprintRiders(sorted);
    var s0 := Pass(gp, results, replacements, "motogp", [], false).value;
    PassReady(gp, results, replacements, "motogp", [], false);
    PassReady(gp, results, replacements, "motogp_sprint", s0, true);
    PassReady(Riders(sorted, "moto2"), results, replacements, "moto2", [], false);
    PassReady(Riders(sorted, "moto3"), results, replacements, "moto3", [], false);
    assert Categories == ["motogp", "motogp_sprint", "moto2", "moto3"];
  }

  /** The loop succeeds exactly when every category is ready: its tables
      are there and every picked rider can be scored (the sprint never
      misses a rider in the race's store). Its records are then labelled
      MotoGP, Moto2 and Moto3, in that order. */
  lemma RecordsOk(sorted: seq<PickItem>, results: Dict<string, seq<Parser.Standing>>,
                  replacements: Dict<string, Dict<string, string>>)
    ensures RecordsFrom(sorted, results, replacements, 0, []).Ok? <==> AllReady(sorted, results, replacements)
    ensures var r := RecordsFrom(sorted, results, replacements, 0, []);
            r.Ok? ==> |r.value| == 3 && r.value[0].category == "motogp"
                      && r.value[1].category == "moto2" && r.value[2].category == "moto3"
  {
    if AllReady(sorted, results, replacements) {
      ReadyPassed(sorted, results, replacements);
      RecordsAll(sorted, results, replacements);
    }
    if RecordsFrom(sorted, results, replacements, 0, []).Ok? {
      RecordsPassed(sorted, results, replacements);
      PassedReady(sorted, results, replacements);
      RecordsAll(sorted, results, replacements);
    }
  }

  /** When every pass succeeds, the records are the combined MotoGP store,
      then the Moto2 and the Moto3 stores. */
  lemma RecordsAll(sorted: seq<PickItem>, results: Dict<string, seq<Parser.Standing>>,
                   replacements: Dict<string, Dict<string, string>>)
    requires AllPassed(sorted, results, replacements)
    ensures var gp := Riders(sorted, "motogp");
            var s1 := Pass(gp, results, replacements, "motogp_sprint", Pass(gp, results, replacements, "motogp", [], false).value, true).value;
            var s2 := Pass(Riders(sorted, "moto2"), results, replacements, "moto2", [], false).value;
            var s3 := Pass(Riders(sorted, "moto3"), results, replacements, "moto3", [], false).value;
            RecordsFrom(sorted, results, replacements, 0, []) == Ok([Record(s1, "motogp"), Record(s2, "moto2"), Record(s3, "moto3")])
  {
    var gp := Riders(sorted, "motogp");
    SprintRiders(sorted);
    var s0 := Pass(gp, results, replacements, "motogp", [], false).value;
    var s1 := Pass(gp, results, replacements, "motogp_sprint", s0, true).value;
    var s2 := Pass(Riders(sorted, "moto2"), results, replacements, "moto2", [], false).value;
    var s3 := Pass(Riders(sorted, "moto3"), results, replacements, "moto3", [], false).value;
    assert Categories[0] == "motogp" && Categories[1] == "motogp_sprint";
    assert Categories[2] == "moto2" && Categories[3] == "moto3";
    var r1, r2, r3 := Record(s1, "motogp"), Record(s2, "moto2"), Record(s3, "moto3");
    RecordsTail(sorted, results, replacements, s1);
    assert [r1] + [r2, r3] == [r1, r2, r3];
    assert RecordsFrom(sorted, results, replacements, 1, s0) == Ok([r1, r2, r3]);
  }

  /** The Moto2 and Moto3 records, whatever store the sprint left. */
  lemma RecordsTail(sorted: seq<PickItem>, results: Dict<string, seq<Parser.Standing>>,
                    replacements: Dict<string, Dict<string, string>>, store: Dict<string, real>)
    requires Pass(Riders(sorted, "moto2"), results, replacements, "moto2", [], false).Ok?
    requires Pass(Riders(sorted, "moto3"), results, replacements, "moto3", [], false).Ok?
    ensures var s2 := Pass(Riders(sorted, "moto2"), results, replacements, "moto2", [], false).value;
            var s3 := Pass(Riders(sorted, "moto3"), results, replacements, "moto3", [], false).value;
            RecordsFrom(sorted, results, replacements, 2, store) == Ok([Record(s2, "moto2"), Record(s3, "moto3")])
  {
    var s2 := Pass(Riders(sorted, "moto2"), results, replacements, "moto2", [], false).value;
    var s3 := Pass(Riders(sorted, "moto3"), results, replacements, "moto3", [], false).value;
    assert Categories[2] == "moto2" && Categories[3] == "moto3";
    var r2, r3 := Record(s2, "moto2"), Record(s3, "moto3");
    assert RecordsFrom(sorted, results, replacements, 4, s3) == Ok([]);
    assert [r3] + [] == [r3];
    assert RecordsFrom(sorted, results, replacements, 3, s2) == Ok([r3]);
    assert [r2] + [r3] == [r2, r3];
  }

  /** The combined MotoGP store, the first record: with distinct riders
      that score under `race` in the race and under `sprint` in the
      sprint, each picked rider holds the sum of its race and sprint
      points, and nobody else anything. */
  lemma CombinedStore(riders: seq<string>, results: Dict<string, seq<Parser.Standing>>,
                      replacements: Dict<string, Dict<string, string>>, race: string -> Result<real>,
                      sprint: string -> Result<real>, rider: string)
    requires PointsFor(riders, results, replacements, "motogp") == Some(race) && Scorable(PointsOf(race, riders))
    requires PointsFor(riders, results, replacements, "motogp_sprint") == Some(sprint) && Scorable(PointsOf(sprint, riders))
    requires Distinct(riders)
    ensures Pass(riders, results, replacements, "motogp", [], false).Ok?
    ensures var s1 := Pass(riders, results, replacements, "motogp_sprint",
                           Pass(riders, results, replacements, "motogp", [], false).value, true);
            && s1.Ok? && IsDict(s1.value)
            && Get(s1.value, rider) == if rider in riders then Some(race(rider).value + sprint(rider).value) else None
  {
    RacePass(riders, results, replacements, "motogp", [], race, rider);
    var s0 := Pass(riders, results, replacements, "motogp", [], false).value;
    forall j | 0 <= j < |riders| ensures Get(s0, riders[j]).Some? {
      RacePass(riders, results, replacements, "motogp", [], race, riders[j]);
    }
    SprintPass(riders, results, replacements, "motogp_sprint", s0, sprint, rider);
  }
}
