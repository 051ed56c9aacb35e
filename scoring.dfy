/** The scoring rules of points_calculator/fdb_points_keeper.py: which
    riders a player picked for a category, what each picked rider scores in
    a race (with the replacement-rider rules), and the per-category records
    of a player's race, the sprint added onto the race. */
module Scoring {
  import opened Wrappers
  import opened Strings
  import opened Dicts
  import Parser

  /** One item of a player's `picks` document: the field name
      `<class>_<predicted>` and the rider picked. */
  type PickItem = (string, string)

  /** Python's `<=` on strings: code point by code point, a proper prefix
      first. */
  predicate StrLe(a: string, b: string)
    decreases |a|
  {
    a == [] || (b != [] && (a[0] < b[0] || (a[0] == b[0] && StrLe(a[1..], b[1..]))))
  }

  lemma {:induction false} StrLeTotal(a: string, b: string)
    ensures StrLe(a, b) || StrLe(b, a)
    decreases |a|
  {
    if a != [] && b != [] && a[0] == b[0] {
      StrLeTotal(a[1..], b[1..]);
    }
  }

  lemma {:induction false} StrLeTrans(a: string, b: string, c: string)
    requires StrLe(a, b) && StrLe(b, c)
    ensures StrLe(a, c)
    decreases |a|
  {
    if a != [] && a[0] == b[0] && b[0] == c[0] {
      StrLeTrans(a[1..], b[1..], c[1..]);
    }
  }

  /** Ascending by field name. */
  predicate SortedByKey(s: seq<PickItem>) {
    forall i, j :: 0 <= i < j < |s| ==> StrLe(s[i].0, s[j].0)
  }

  /** `x` placed after every item whose key is not greater than its own. */
  function Insert(sorted: seq<PickItem>, x: PickItem): seq<PickItem> {
    if sorted == [] then [x]
    else
      var n := |sorted| - 1;
      if StrLe(sorted[n].0, x.0) then sorted + [x] else Insert(sorted[..n], x) + [sorted[n]]
  }

  /** `picks.sort(key=...)`: Python's sort is stable, so items with equal
      keys keep their order; inserting the items one by one, each after the
      items with keys not greater than its own, gives the same list. */
  function SortByKey(s: seq<PickItem>): seq<PickItem> {
    if s == [] then []
    else
      var n := |s| - 1;
      Insert(SortByKey(s[..n]), s[n])
  }

  /** An item not below any item of a sorted list can follow them. */
  lemma SortedAppend(s: seq<PickItem>, x: PickItem)
    requires SortedByKey(s)
    requires forall i :: 0 <= i < |s| ==> StrLe(s[i].0, x.0)
    ensures SortedByKey(s + [x])
  {
    forall i, j | 0 <= i < j < |s| + 1 ensures StrLe((s + [x])[i].0, (s + [x])[j].0) {
      if j == |s| {
        assert (s + [x])[j] == x && (s + [x])[i] == s[i];
      } else {
        assert (s + [x])[j] == s[j] && (s + [x])[i] == s[i];
      }
    }
  }

  /** Every item of `front`, the items before the last of a sorted list
      and one more not above the last, is not above the last. */
  lemma BelowLast(sorted: seq<PickItem>, front: seq<PickItem>, x: PickItem)
    requires SortedByKey(sorted) && sorted != []
    requires multiset(front) == multiset(sorted[..|sorted| - 1]) + multiset{x}
    requires StrLe(x.0, sorted[|sorted| - 1].0)
    ensures forall i :: 0 <= i < |front| ==> StrLe(front[i].0, sorted[|sorted| - 1].0)
  {
    var n := |sorted| - 1;
    forall i | 0 <= i < |front| ensures StrLe(front[i].0, sorted[n].0) {
      assert front[i] in multiset(front);
      if front[i] != x {
        assert front[i] in multiset(sorted[..n]);
        var k :| 0 <= k < n && sorted[..n][k] == front[i];
        assert StrLe(sorted[k].0, sorted[n].0);
      }
    }
  }

  /** Inserting into a sorted list adds the item and keeps it sorted. */
  lemma {:induction false} InsertSpec(sorted: seq<PickItem>, x: PickItem)
    requires SortedByKey(sorted)
    ensures multiset(Insert(sorted, x)) == multiset(sorted) + multiset{x}
    ensures SortedByKey(Insert(sorted, x))
  {
    if sorted != [] {
      var n := |sorted| - 1;
      var last := sorted[n];
      var init := sorted[..n];
      assert sorted == init + [last];
      if StrLe(last.0, x.0) {
        assert Insert(sorted, x) == sorted + [x];
        forall i | 0 <= i < |sorted| ensures StrLe(sorted[i].0, x.0) {
          if i < n {
            StrLeTrans(sorted[i].0, last.0, x.0);
          }
        }
        SortedAppend(sorted, x);
      } else {
        StrLeTotal(last.0, x.0);
        InsertSpec(init, x);
        var front := Insert(init, x);
        assert Insert(sorted, x) == front + [last];
        BelowLast(sorted, front, x);
        assert multiset(front + [last]) == multiset(front) + multiset{last};
        SortedAppend(front, last);
      }
    }
  }

  /** The sorted list holds the same items, in ascending order of key. */
  lemma {:induction false} SortByKeySpec(s: seq<PickItem>)
    ensures multiset(SortByKey(s)) == multiset(s)
    ensures SortedByKey(SortByKey(s))
  {
    if s != [] {
      var n := |s| - 1;
      SortByKeySpec(s[..n]);
      InsertSpec(SortByKey(s[..n]), s[n]);
      assert s == s[..n] + [s[n]];
    }
  }

  /** Sorting a sorted list changes nothing, so sorting the same list again
      for the next category leaves it as it is. */
  lemma {:induction false} SortByKeySorted(s: seq<PickItem>)
    requires SortedByKey(s)
    ensures SortByKey(s) == s
  {
    if s != [] {
      var n := |s| - 1;
      SortByKeySorted(s[..n]);
      assert s == s[..n] + [s[n]];
      if n > 0 {
        assert StrLe(s[..n][n - 1].0, s[n].0);
      }
    }
  }

  /** `_get_category_picks` reads the sprint's picks from the `motogp`
      picks. */
  function PickCategory(category: string): string {
    if category == "motogp_sprint" then "motogp" else category
  }

  /** The class of a field name: the text before its first `_`. */
  predicate InCategory(category: string, item: PickItem) {
    Split(item.0, "_")[0] == category
  }

  /** The items of the category, in order. */
  function ChosenItems(category: string, s: seq<PickItem>): seq<PickItem> {
    if s == [] then []
    else
      var n := |s| - 1;
      ChosenItems(category, s[..n]) + if InCategory(category, s[n]) then [s[n]] else []
  }

  /** The riders of the category, in order. */
  function Chosen(category: string, s: seq<PickItem>): seq<string> {
    Values(ChosenItems(category, s))
  }

  /** One more item of the list: its rider is chosen when it is of the
      category. */
  lemma ChosenStep(category: string, s: seq<PickItem>, i: nat)
    requires i < |s|
    ensures Chosen(category, s[..i + 1]) == Chosen(category, s[..i]) + if InCategory(category, s[i]) then [s[i].1] else []
  {
    assert s[..i + 1][..i] == s[..i];
    var front := ChosenItems(category, s[..i]);
    if InCategory(category, s[i]) {
      assert Values(front + [s[i]]) == Values(front) + [s[i].1];
    } else {
      assert ChosenItems(category, s[..i + 1]) == front;
    }
  }

  /** The chosen items are the items of the category, each as often as in
      the list. */
  lemma {:induction false} ChosenItemsCount(category: string, s: seq<PickItem>, x: PickItem)
    ensures multiset(ChosenItems(category, s))[x] == if InCategory(category, x) then multiset(s)[x] else 0
  {
    if s != [] {
      var n := |s| - 1;
      ChosenItemsCount(category, s[..n], x);
      assert s == s[..n] + [s[n]];
    }
  }

  /** Every chosen item is an item of the list. */
  lemma ChosenItemFrom(category: string, s: seq<PickItem>, i: nat) returns (k: nat)
    requires i < |ChosenItems(category, s)|
    ensures k < |s| && s[k] == ChosenItems(category, s)[i]
  {
    var x := ChosenItems(category, s)[i];
    assert x in multiset(ChosenItems(category, s));
    ChosenItemsCount(category, s, x);
    assert x in multiset(s);
    k :| 0 <= k < |s| && s[k] == x;
  }

  /** Filtering keeps the ascending order. */
  lemma {:induction false} ChosenItemsSorted(category: string, s: seq<PickItem>)
    requires SortedByKey(s)
    ensures SortedByKey(ChosenItems(category, s))
  {
    if s != [] {
      var n := |s| - 1;
      var init := s[..n];
      ChosenItemsSorted(category, init);
      var front := ChosenItems(category, init);
      if InCategory(category, s[n]) {
        forall i | 0 <= i < |front| ensures StrLe(front[i].0, s[n].0) {
          var k := ChosenItemFrom(category, init, i);
          assert StrLe(s[k].0, s[n].0);
        }
        SortedAppend(front, s[n]);
      }
    }
  }

  /** `_get_category_picks`: the riders picked for the category (the sprint
      reading the `motogp` picks) are exactly the picks whose field name
      starts with the category, each as often as it was picked, in
      ascending order of field name. */
  lemma CategoryPicksSpec(category: string, picks: seq<PickItem>)
    ensures var items := ChosenItems(PickCategory(category), SortByKey(picks));
            && SortedByKey(items)
            && (forall x :: multiset(items)[x] == if InCategory(PickCategory(category), x) then multiset(picks)[x] else 0)
  {
    var c := PickCategory(category);
    SortByKeySpec(picks);
    ChosenItemsSorted(c, SortByKey(picks));
    forall x ensures multiset(ChosenItems(c, SortByKey(picks)))[x] == if InCategory(c, x) then multiset(picks)[x] else 0 {
      ChosenItemsCount(c, SortByKey(picks), x);
    }
  }

  /** `_get_category_picks`: sorts the caller's list in place by field name,
      then keeps the riders of the category. */
  method GetCategoryPicks(category: string, picks: array<PickItem>) returns (playerPicks: seq<string>)
    modifies picks
    ensures picks[..] == SortByKey(old(picks[..]))
    ensures playerPicks == Chosen(PickCategory(category), picks[..])
  {
    var c := if category == "motogp_sprint" then "motogp" else category;
    SortByKeySpec(picks[..]);
    var sorted := SortByKey(picks[..]);
    assert |sorted| == |multiset(sorted)| == picks.Length;
    forall i | 0 <= i < picks.Length {
      picks[i] := sorted[i];
    }
    assert picks[..] == sorted;
    playerPicks := [];
    for i := 0 to picks.Length
      invariant picks[..] == sorted
      invariant playerPicks == Chosen(c, sorted[..i])
    {
      ChosenStep(c, sorted, i);
      if Split(picks[i].0, "_")[0] == c {
        playerPicks := playerPicks + [picks[i].1];
      }
    }
    assert sorted[..picks.Length] == sorted;
  }

  /** Upper case to lower case for the Latin letters of ASCII and Latin-1
      (the accented capitals sit 0x20 below their small letters, the
      multiplication sign excepted); other characters unchanged. */
  function LowerChar(c: char): char {
    if 'A' <= c <= 'Z' || ('\U{C0}' <= c <= '\U{DE}' && c != '\U{D7}') then (c as int + 32) as char else c
  }

  function Lower(s: string): string {
    seq(|s|, i requires 0 <= i < |s| => LowerChar(s[i]))
  }

  /** `points["Rider"].str.contains(name, case=False)` on one row. */
  predicate NameMatches(row: Parser.Standing, name: string) {
    Contains(Lower(row.rider), Lower(name))
  }

  /** The Points of the first row whose rider matches the name, or `None`
      (the `IndexError` of `.iloc[0]` on no rows). */
  function FirstPoints(rows: seq<Parser.Standing>, name: string): Option<real> {
    if rows == [] then None
    else if NameMatches(rows[0], name) then Some(rows[0].points)
    else FirstPoints(rows[1..], name)
  }

  /** Some row matches exactly when there are points, and then they are the
      points of the first matching row. */
  lemma {:induction false} FirstPointsSpec(rows: seq<Parser.Standing>, name: string)
    ensures FirstPoints(rows, name).None? <==> forall k :: 0 <= k < |rows| ==> !NameMatches(rows[k], name)
    ensures FirstPoints(rows, name).Some? ==>
              exists k :: 0 <= k < |rows| && NameMatches(rows[k], name) && FirstPoints(rows, name) == Some(rows[k].points) &&
                forall j :: 0 <= j < k ==> !NameMatches(rows[j], name)
  {
    if rows != [] && !NameMatches(rows[0], name) {
      FirstPointsSpec(rows[1..], name);
      if FirstPoints(rows, name).Some? {
        var k :| 0 <= k < |rows| - 1 && NameMatches(rows[1..][k], name) && FirstPoints(rows[1..], name) == Some(rows[1..][k].points) &&
                 forall j :: 0 <= j < k ==> !NameMatches(rows[1..][j], name);
        assert forall j :: 0 <= j < k + 1 ==> !NameMatches(rows[j], name) by {
          forall j | 0 < j < k + 1 ensures !NameMatches(rows[j], name) {
            assert rows[j] == rows[1..][j - 1];
          }
        }
        assert rows[k + 1] == rows[1..][k];
      }
      forall k | 0 < k < |rows| ensures rows[k] == rows[1..][k - 1] {}
    }
  }

  /** The points of one picked rider in one race (lines 107-132): the
      rider's own row; failing that, the points of the rider's replacement,
      or, when the replacement is itself picked, of the replacement's
      replacement; 0 when there is no replacement or no row for it. */
  function RiderPoints(rider: string, rows: seq<Parser.Standing>, replacements: Dict<string, string>, picks: seq<string>): Result<real> {
    match FirstPoints(rows, rider)
    case Some(p) => Ok(p)
    case None =>
      match Get(replacements, rider)
      case None => Ok(0.0)
      case Some(newRider) =>
        if newRider !in picks then Ok(FirstPoints(rows, newRider).GetOr(0.0))
        else
          match Get(replacements, newRider)
          case None => Err(KeyError)
          case Some(next) => Ok(FirstPoints(rows, next).GetOr(0.0))
  }

  /** A rider's own row always wins; a score is 0 or the Points of some row
      of the table; and the only error is `KeyError`, raised exactly when
      the rider has no row, has a replacement, the replacement is picked
      too, and the replacement has no replacement of its own. */
  lemma RiderPointsSpec(rider: string, rows: seq<Parser.Standing>, replacements: Dict<string, string>, picks: seq<string>)
    ensures FirstPoints(rows, rider).Some? ==> RiderPoints(rider, rows, replacements, picks) == Ok(FirstPoints(rows, rider).value)
    ensures RiderPoints(rider, rows, replacements, picks).Ok? ==>
              var v := RiderPoints(rider, rows, replacements, picks).value;
              v == 0.0 || exists k :: 0 <= k < |rows| && rows[k].points == v
    ensures RiderPoints(rider, rows, replacements, picks).Err? <==>
              && (forall k :: 0 <= k < |rows| ==> !NameMatches(rows[k], rider))
              && Get(replacements, rider).Some?
              && Get(replacements, rider).value in picks
              && Get(replacements, Get(replacements, rider).value).None?
    ensures RiderPoints(rider, rows, replacements, picks).Err? ==> RiderPoints(rider, rows, replacements, picks).error == KeyError
  {
    FirstPointsSpec(rows, rider);
    match Get(replacements, rider)
    case None =>
    case Some(newRider) =>
      FirstPointsSpec(rows, newRider);
      match Get(replacements, newRider)
      case None =>
      case Some(next) => FirstPointsSpec(rows, next);
  }

  /** The points of each picked rider of a race: `RiderPoints` against the
      race's table, replacements and picks. */
  function Scorer(rows: seq<Parser.Standing>, replacements: Dict<string, string>, picks: seq<string>): string -> Result<real> {
    rider => RiderPoints(rider, rows, replacements, picks)
  }

  /** The value one iteration of the loop over the picked riders stores for
      a rider whose points lookup gave `found`: a race stores the points,
      the sprint adds them onto what the rider already holds (`KeyError`
      when the rider holds nothing). */
  function StoredValue<K(==)>(store: Dict<K, real>, sprint: bool, rider: K, found: Result<real>): Result<real> {
    match found
    case Err(e) => Err(e)
    case Ok(p) =>
      if !sprint then Ok(p)
      else
        match Get(store, rider)
        case None => Err(KeyError)
        case Some(v) => Ok(v + p)
  }

  /** The value stored for a rider whose lookup found points. */
  lemma StoredValueOf<K>(store: Dict<K, real>, sprint: bool, rider: K, found: Result<real>)
    requires found.Ok?
    ensures !sprint ==> StoredValue(store, sprint, rider, found) == Ok(found.value)
    ensures sprint && Get(store, rider).None? ==> StoredValue(store, sprint, rider, found) == Err(KeyError)
    ensures sprint && Get(store, rider).Some? ==> StoredValue(store, sprint, rider, found) == Ok(Get(store, rider).value + found.value)
  {
  }

  /** The points lookup of each picked rider, in pick order. */
  function PointsOf<K(==)>(points: K -> Result<real>, picks: seq<K>): (pts: seq<Result<real>>)
    ensures |pts| == |picks|
    ensures forall k :: 0 <= k < |picks| ==> pts[k] == points(picks[k])
  {
    seq(|picks|, k requires 0 <= k < |picks| => points(picks[k]))
  }

  /** The loop over the picked riders of one category (lines 106-136):
      the store after the first `n` picked riders, `pts` holding their
      points lookups, or the error of the first rider that could not be
      stored. */
  function Scored<K(==)>(store: Dict<K, real>, sprint: bool, picks: seq<K>, pts: seq<Result<real>>, n: nat): Result<Dict<K, real>>
    requires n <= |picks| == |pts|
  {
    if n == 0 then Ok(store)
    else
      match Scored(store, sprint, picks, pts, n - 1)
      case Err(e) => Err(e)
      case Ok(s) =>
        match StoredValue(s, sprint, picks[n - 1], pts[n - 1])
        case Err(e) => Err(e)
        case Ok(v) => Ok(Put(s, picks[n - 1], v))
  }

  /** One more rider that can be stored. */
  lemma ScoredStep<K>(store: Dict<K, real>, sprint: bool, picks: seq<K>, pts: seq<Result<real>>, n: nat,
                   s: Dict<K, real>, v: real)
    requires n < |picks| == |pts| && Scored(store, sprint, picks, pts, n) == Ok(s)
    requires StoredValue(s, sprint, picks[n], pts[n]) == Ok(v)
    ensures Scored(store, sprint, picks, pts, n + 1) == Ok(Put(s, picks[n], v))
  {
  }

  /** Once a rider cannot be stored, the pass fails with its error. */
  lemma {:induction false} ScoredError<K>(store: Dict<K, real>, sprint: bool, picks: seq<K>, pts: seq<Result<real>>,
                                       n: nat, m: nat, e: Error)
    requires n <= m <= |picks| == |pts| && Scored(store, sprint, picks, pts, n) == Err(e)
    ensures Scored(store, sprint, picks, pts, m) == Err(e)
    decreases m - n
  {
    if n < m {
      ScoredError(store, sprint, picks, pts, n + 1, m, e);
    }
  }

  /** What one more rider changes in the store: its own entry. */
  lemma ScoredGet<K>(store: Dict<K, real>, sprint: bool, picks: seq<K>, pts: seq<Result<real>>, n: nat, r: K)
    requires n < |picks| == |pts| && Scored(store, sprint, picks, pts, n + 1).Ok?
    ensures Scored(store, sprint, picks, pts, n).Ok?
    ensures StoredValue(Scored(store, sprint, picks, pts, n).value, sprint, picks[n], pts[n]).Ok?
    ensures Get(Scored(store, sprint, picks, pts, n + 1).value, r) ==
              if r == picks[n] then Some(StoredValue(Scored(store, sprint, picks, pts, n).value, sprint, picks[n], pts[n]).value)
              else Get(Scored(store, sprint, picks, pts, n).value, r)
  {
    var s0 := Scored(store, sprint, picks, pts, n).value;
    var v := StoredValue(s0, sprint, picks[n], pts[n]).value;
    if r == picks[n] {
      PutGetSame(s0, picks[n], v);
    } else {
      PutGetOther(s0, picks[n], v, r);
    }
  }

  /** Every picked rider can be scored. */
  predicate Scorable(pts: seq<Result<real>>) {
    forall k :: 0 <= k < |pts| ==> pts[k].Ok?
  }

  /** A pass keeps the store a dictionary. */
  lemma {:induction false} ScoredIsDict<K>(store: Dict<K, real>, sprint: bool, picks: seq<K>, pts: seq<Result<real>>, n: nat)
    requires IsDict(store) && n <= |picks| == |pts| && Scored(store, sprint, picks, pts, n).Ok?
    ensures IsDict(Scored(store, sprint, picks, pts, n).value)
  {
    if n > 0 {
      var prev := Scored(store, sprint, picks, pts, n - 1);
      assert prev.Ok?;
      ScoredIsDict(store, sprint, picks, pts, n - 1);
      var v := StoredValue(prev.value, sprint, picks[n - 1], pts[n - 1]);
      assert v.Ok?;
      PutKeys(prev.value, picks[n - 1], v.value);
    }
  }

  /** A race pass over riders that can all be scored does not fail. */
  lemma {:induction false} ScoreRaceOk<K>(store: Dict<K, real>, picks: seq<K>, pts: seq<Result<real>>, n: nat)
    requires n <= |picks| == |pts| && Scorable(pts)
    ensures Scored(store, false, picks, pts, n).Ok?
  {
    if n > 0 {
      ScoreRaceOk(store, picks, pts, n - 1);
      assert pts[n - 1].Ok?;
    }
  }

  /** A rider is among the first `n` picks when it is the `n`-th or among
      the first `n - 1`. */
  lemma PrefixMember<K>(picks: seq<K>, n: nat, r: K)
    requires 0 < n <= |picks|
    ensures r in picks[..n] <==> r == picks[n - 1] || r in picks[..n - 1]
  {
    assert picks[..n] == picks[..n - 1] + [picks[n - 1]];
  }

  /** After a race pass a picked rider holds its points and any other key
      what it held before. */
  lemma {:induction false} ScoreRaceGet<K>(store: Dict<K, real>, picks: seq<K>, points: K -> Result<real>, n: nat,
                                        r: K)
    requires n <= |picks| && Scorable(PointsOf(points, picks))
    ensures Scored(store, false, picks, PointsOf(points, picks), n).Ok?
    ensures Get(Scored(store, false, picks, PointsOf(points, picks), n).value, r) ==
              if r in picks[..n] then Some(points(r).value) else Get(store, r)
  {
    var pts := PointsOf(points, picks);
    ScoreRaceOk(store, picks, pts, n);
    if n > 0 {
      var last := picks[n - 1];
      ScoreRaceGet(store, picks, points, n - 1, r);
      ScoredGet(store, false, picks, pts, n - 1, r);
      var prev := Scored(store, false, picks, pts, n - 1).value;
      StoredValueOf(prev, false, last, pts[n - 1]);
      assert pts[n - 1] == points(last);
      PrefixMember(picks, n, r);
    }
  }

  /** A race pass succeeds when every picked rider has points, and leaves
      a dictionary in which a picked rider holds its points and any other
      key what it held before. */
  lemma ScoreRaceSpec<K>(store: Dict<K, real>, picks: seq<K>, points: K -> Result<real>, r: K)
    requires IsDict(store) && Scorable(PointsOf(points, picks))
    ensures Scored(store, false, picks, PointsOf(points, picks), |picks|).Ok?
    ensures IsDict(Scored(store, false, picks, PointsOf(points, picks), |picks|).value)
    ensures r in picks ==> points(r).Ok? && Get(Scored(store, false, picks, PointsOf(points, picks), |picks|).value, r) == Some(points(r).value)
    ensures r !in picks ==> Get(Scored(store, false, picks, PointsOf(points, picks), |picks|).value, r) == Get(store, r)
  {
    var pts := PointsOf(points, picks);
    ScoreRaceOk(store, picks, pts, |picks|);
    ScoredIsDict(store, false, picks, pts, |picks|);
    assert picks[..|picks|] == picks;
    ScoreRaceGet(store, picks, points, |picks|, r);
    if r in picks {
      var i :| 0 <= i < |picks| && picks[i] == r;
      assert pts[i] == points(r);
    }
  }

  /** A sprint pass that gets past pick `n` found that rider in the store
      and had points for it. */
  lemma SprintPrefixOk<K>(store: Dict<K, real>, picks: seq<K>, pts: seq<Result<real>>, n: nat)
    requires n < |picks| == |pts| && Scored(store, true, picks, pts, n + 1).Ok?
    ensures Scored(store, true, picks, pts, n).Ok? && pts[n].Ok?
    ensures Get(Scored(store, true, picks, pts, n).value, picks[n]).Some?
  {
    var s0 := Scored(store, true, picks, pts, n).value;
    assert StoredValue(s0, true, picks[n], pts[n]).Ok?;
    assert Get(s0, picks[n]).Some?;
  }

  /** One sprint step on a rider the store holds: that rider gains the
      points of the pick and every other key keeps its value. */
  lemma SprintStep<K>(store: Dict<K, real>, picks: seq<K>, pts: seq<Result<real>>, n: nat, r: K)
    requires n < |picks| == |pts| && pts[n].Ok?
    requires Scored(store, true, picks, pts, n).Ok?
    requires Get(Scored(store, true, picks, pts, n).value, picks[n]).Some?
    ensures Scored(store, true, picks, pts, n + 1).Ok?
    ensures Get(Scored(store, true, picks, pts, n + 1).value, r) ==
              if r == picks[n] then Some(Get(Scored(store, true, picks, pts, n).value, r).value + pts[n].value)
              else Get(Scored(store, true, picks, pts, n).value, r)
  {
    var s0 := Scored(store, true, picks, pts, n).value;
    var r0 := picks[n];
    var v := Get(s0, r0).value + pts[n].value;
    assert StoredValue(s0, true, r0, pts[n]) == Ok(v) by {
      StoredValueOf(s0, true, r0, pts[n]);
    }
    ScoredStep(store, true, picks, pts, n, s0, v);
    var s1 := Put(s0, r0, v);
    assert Scored(store, true, picks, pts, n + 1).value == s1;
    if r == r0 {
      PutGetSame(s0, r0, v);
      assert Get(s1, r) == Some(v);
    } else {
      PutGetOther(s0, r0, v, r);
      assert Get(s1, r) == Get(s0, r);
    }
  }

  /** A sprint pass over riders the store already holds succeeds, and a key
      is held afterwards exactly when it was held before. */
  lemma {:induction false} ScoreSprintOk<K>(store: Dict<K, real>, picks: seq<K>, pts: seq<Result<real>>, n: nat, r: K)
    requires n <= |picks| == |pts| && Scorable(pts)
    requires forall j :: 0 <= j < n ==> Get(store, picks[j]).Some?
    ensures Scored(store, true, picks, pts, n).Ok?
    ensures Get(Scored(store, true, picks, pts, n).value, r).Some? <==> Get(store, r).Some?
  {
    if n > 0 {
      ScoreSprintOk(store, picks, pts, n - 1, picks[n - 1]);
      ScoreSprintOk(store, picks, pts, n - 1, r);
      SprintStep(store, picks, pts, n - 1, r);
    }
  }

  /** A sprint pass raises `KeyError` at the first picked rider that the
      store does not hold. */
  lemma ScoreSprintMissing<K>(store: Dict<K, real>, picks: seq<K>, pts: seq<Result<real>>, k: nat)
    requires k < |picks| == |pts| && Scorable(pts)
    requires forall j :: 0 <= j < k ==> Get(store, picks[j]).Some?
    requires Get(store, picks[k]).None?
    ensures Scored(store, true, picks, pts, |picks|) == Err(KeyError)
  {
    ScoreSprintOk(store, picks, pts, k, picks[k]);
    var s0 := Scored(store, true, picks, pts, k).value;
    assert StoredValue(s0, true, picks[k], pts[k]) == Err(KeyError) by {
      StoredValueOf(s0, true, picks[k], pts[k]);
    }
    assert Scored(store, true, picks, pts, k + 1) == Err(KeyError);
    ScoredError(store, true, picks, pts, k + 1, |picks|, KeyError);
  }

  /** What a sprint pass over the first `n` picks leaves under `r`: the
      value of the store plus the points of every pick of `r`. */
  function SprintValue<K(==)>(store: Dict<K, real>, picks: seq<K>, pts: seq<Result<real>>, n: nat, r: K): Option<real>
    requires n <= |picks| == |pts|
  {
    if n == 0 then Get(store, r)
    else
      var prev := SprintValue(store, picks, pts, n - 1, r);
      if picks[n - 1] != r then prev
      else if prev.Some? && pts[n - 1].Ok? then Some(prev.value + pts[n - 1].value)
      else None
  }

  /** A sprint pass that succeeds leaves `SprintValue` under every key. */
  lemma {:induction false} SprintGetValue<K>(store: Dict<K, real>, picks: seq<K>, pts: seq<Result<real>>, n: nat, r: K)
    requires n <= |picks| == |pts| && Scored(store, true, picks, pts, n).Ok?
    ensures Get(Scored(store, true, picks, pts, n).value, r) == SprintValue(store, picks, pts, n, r)
  {
    if n > 0 {
      SprintPrefixOk(store, picks, pts, n - 1);
      SprintGetValue(store, picks, pts, n - 1, r);
      SprintStep(store, picks, pts, n - 1, r);
      var prev := Scored(store, true, picks, pts, n - 1).value;
      if r == picks[n - 1] {
        assert Get(prev, r).Some?;
      }
    }
  }

  /** With distinct picks, `SprintValue` adds the points of the one pick
      of `r` to what the store held, and leaves an unpicked key alone. */
  lemma {:induction false} SprintValueDistinct<K>(store: Dict<K, real>, picks: seq<K>, pts: seq<Result<real>>, n: nat,
                                                r: K, i: nat)
    requires Distinct(picks) && n <= |picks| == |pts|
    ensures r !in picks[..n] ==> SprintValue(store, picks, pts, n, r) == Get(store, r)
    ensures i < n && picks[i] == r && Get(store, r).Some? && pts[i].Ok? ==>
              SprintValue(store, picks, pts, n, r) == Some(Get(store, r).value + pts[i].value)
  {
    if n > 0 {
      SprintValueDistinct(store, picks, pts, n - 1, r, i);
      PrefixMember(picks, n, r);
      if r == picks[n - 1] {
        assert forall j :: 0 <= j < n - 1 ==> picks[j] != r;
        assert r !in picks[..n - 1];
        if i < n && picks[i] == r {
          assert i == n - 1;
        }
      } else if i < n && picks[i] == r {
        assert i < n - 1;
      }
    }
  }

  /** A sprint pass over distinct riders that the store holds succeeds and
      leaves a dictionary in which a picked rider holds
      the sum of its race and sprint points and any other key what it held
      before. */
  lemma ScoreSprintSpec<K>(store: Dict<K, real>, picks: seq<K>, points: K -> Result<real>, r: K)
    requires IsDict(store) && Distinct(picks) && Scorable(PointsOf(points, picks))
    requires forall j :: 0 <= j < |picks| ==> Get(store, picks[j]).Some?
    ensures Scored(store, true, picks, PointsOf(points, picks), |picks|).Ok?
    ensures IsDict(Scored(store, true, picks, PointsOf(points, picks), |picks|).value)
    ensures r in picks ==>
              && Get(store, r).Some? && points(r).Ok?
              && Get(Scored(store, true, picks, PointsOf(points, picks), |picks|).value, r)
                 == Some(Get(store, r).value + points(r).value)
    ensures r !in picks ==> Get(Scored(store, true, picks, PointsOf(points, picks), |picks|).value, r) == Get(store, r)
  {
    var pts := PointsOf(points, picks);
    ScoreSprintOk(store, picks, pts, |picks|, r);
    ScoredIsDict(store, true, picks, pts, |picks|);
    assert picks[..|picks|] == picks;
    SprintGetValue(store, picks, pts, |picks|, r);
    if r in picks {
      var i :| 0 <= i < |picks| && picks[i] == r;
      assert pts[i] == points(r);
      SprintValueDistinct(store, picks, pts, |picks|, r, i);
    } else {
      SprintValueDistinct(store, picks, pts, |picks|, r, 0);
    }
  }

  /** The loop over the picked riders of one category, each rider's
      points given by `points` (the lookup of lines 107-132); a rider that
      cannot be scored or stored ends the pass with its error. */
  method ScoreCategory<K(==)>(store: Dict<K, real>, category: string, playerPicks: seq<K>, points: K -> Result<real>)
      returns (r: Result<Dict<K, real>>)
    ensures r == Scored(store, category == "motogp_sprint", playerPicks, PointsOf(points, playerPicks), |playerPicks|)
  {
    var sprint := category == "motogp_sprint";
    ghost var pts := PointsOf(points, playerPicks);
    var pointsStore := store;
    for i := 0 to |playerPicks|
      invariant Scored(store, sprint, playerPicks, pts, i) == Ok(pointsStore)
    {
      var rider := playerPicks[i];
      var riderPoints := points(rider);
      assert riderPoints == pts[i];
      var stored := StoredValue(pointsStore, sprint, rider, riderPoints);
      if stored.Err? {
        ScoredError(store, sprint, playerPicks, pts, i + 1, |playerPicks|, stored.error);
        return Err(stored.error);
      }
      ScoredStep(store, sprint, playerPicks, pts, i, pointsStore, stored.value);
      pointsStore := Put(pointsStore, rider, stored.value);
    }
    return Ok(pointsStore);
  }
}
