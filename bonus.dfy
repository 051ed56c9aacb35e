/** The final-race bonuses of `PointsKeeper` in
    points_calculator/fdb_points_keeper.py (lines 198-255): for each class,
    50 points on `bonus_50` for every rider picked in the exact position of
    the final championship standings, and 10 points per pick on `bonus_30`
    when every pick is in the standings but none in its exact position. */
module BonusPoints {
  import opened Wrappers
  import opened Strings
  import opened Dicts
  import opened PointsKeeping

  /** The field `_insert_bonus_point` uses as written (line 252): the
      50-point field's name carries a trailing space. */
  function BonusFieldAsWritten(bonus: int): string {
    if bonus == 50 then "bonus_50 " else "bonus_30"
  }

  /** The field the bonus is meant for: the player document's own
      `bonus_50` or `bonus_30`. */
  function BonusField(bonus: int): string {
    if bonus == 50 then "bonus_50" else "bonus_30"
  }

  /** The intended fields are fields of every player document, and the
      field with the trailing space is not one of them. */
  lemma BonusFields()
    ensures BonusField(50) == PlayerFields[1] && BonusField(10) == PlayerFields[2]
    ensures BonusField(50) != BonusField(10)
    ensures BonusFieldAsWritten(50) !in PlayerFields
  {
    assert BonusField(50)[6] != BonusField(10)[6];
    var f := BonusFieldAsWritten(50);
    assert |f| == 9;
    assert f != PlayerFields[1] by { assert |PlayerFields[1]| == 8; }
    assert f != PlayerFields[2] by { assert |PlayerFields[2]| == 8; }
    assert f != PlayerFields[0] by { assert |PlayerFields[0]| == 5; }
    assert f != PlayerFields[3] by { assert f[0] != PlayerFields[3][0]; }
    assert f != PlayerFields[4] by { assert f[0] != PlayerFields[4][0]; }
    assert f != PlayerFields[5] by { assert f[0] != PlayerFields[5][0]; }
    assert f != PlayerFields[6] by { assert f[0] != PlayerFields[6][0]; }
  }

  /** Lines 252-255: the bonus added to a field of the player's document;
      reading a field the document lacks raises `KeyError`. */
  function InsertBonus(doc: Doc, field: string, bonus: real): Result<Doc> {
    match Get(doc, field)
    case None => Err(KeyError)
    case Some(v) => Ok(Put(doc, field, v + bonus))
  }

  /** `InsertBonus` fails exactly on a missing field; otherwise the field
      grows by the bonus and every other field keeps its value. */
  lemma InsertBonusSpec(doc: Doc, field: string, bonus: real)
    ensures InsertBonus(doc, field, bonus).Ok? <==> Get(doc, field).Some?
    ensures InsertBonus(doc, field, bonus).Err? ==> InsertBonus(doc, field, bonus).error == KeyError
    ensures InsertBonus(doc, field, bonus).Ok? ==>
              && Get(InsertBonus(doc, field, bonus).value, field) == Some(Get(doc, field).value + bonus)
              && forall k :: k != field ==> Get(InsertBonus(doc, field, bonus).value, k) == Get(doc, k)
  {
    if Get(doc, field).Some? {
      var v := Get(doc, field).value;
      forall k ensures Get(Put(doc, field, v + bonus), k) == if k == field then Some(v + bonus) else Get(doc, k) {
        GetPut(doc, field, v + bonus, k);
      }
    }
  }

  /** `_insert_bonus_point` with the intended field names: the player's
      document is read, and the bonus written back on top of the field's
      value; a missing field raises before anything is written. */
  method InsertBonusPoint(player: PlayerDoc, bonus: int) returns (err: Option<Error>)
    modifies player
    ensures match InsertBonus(old(player.fields), BonusField(bonus), bonus as real)
            case Ok(d) => err == None && player.fields == d
            case Err(e) => err == Some(e) && player.fields == old(player.fields)
  {
    var field := BonusField(bonus);
    match Get(player.fields, field)
    case None =>
      err := Some(KeyError);
    case Some(current) =>
      player.Update(field, current + bonus as real);
      err := None;
  }

  /** `champ_standings["Rider"].str.contains(pick).any()`: some rider of
      the standings has the pick in its name. */
  predicate AnyContains(standings: seq<string>, pick: string) {
    exists i :: 0 <= i < |standings| && Contains(standings[i], pick)
  }

  /** Lines 225-234 for the first `i` picks: the document after the
      50-point bonuses, and the tracker of the 30-point bonus. Reading the
      standings past their end raises `IndexError`. */
  function FiftyPass(doc: Doc, picks: seq<string>, standings: seq<string>, field50: string, i: nat)
    : Result<(Doc, seq<bool>)>
    requires i <= |picks|
  {
    if i == 0 then Ok((doc, []))
    else
      match FiftyPass(doc, picks, standings, field50, i - 1)
      case Err(e) => Err(e)
      case Ok(state) =>
        var j := i - 1;
        if j >= |standings| then Err(IndexError)
        else if picks[j] == standings[j] then
          match InsertBonus(state.0, field50, 50.0)
          case Err(e) => Err(e)
          case Ok(d) => Ok((d, state.1 + [false]))
        else Ok((state.0, state.1 + [AnyContains(standings, picks[j])]))
  }

  /** Lines 236-238 for the first `n` picks: 10 points each on
      `bonus_30`. */
  function ThirtyPass(doc: Doc, n: nat): Result<Doc> {
    if n == 0 then Ok(doc)
    else
      match ThirtyPass(doc, n - 1)
      case Err(e) => Err(e)
      case Ok(d) => InsertBonus(d, BonusField(10), 10.0)
  }

  /** `all(tracker)`. */
  predicate AllTrue(tracker: seq<bool>) {
    forall j :: 0 <= j < |tracker| ==> tracker[j]
  }

  /** Lines 219-240 for one player and one class: the 50-point pass over
      the picks, then the 30-point bonus when every tracker entry is
      true. `field50` is the field the 50-point bonus goes to. */
  function CategoryBonusOf(doc: Doc, picks: seq<string>, standings: seq<string>, field50: string): Result<Doc> {
    match FiftyPass(doc, picks, standings, field50, |picks|)
    case Err(e) => Err(e)
    case Ok(state) =>
      if AllTrue(state.1) then ThirtyPass(state.0, |picks|)
      else Ok(state.0)
  }

  /** The number of the first `n` picks in their exact position of the
      standings. */
  function Exact(picks: seq<string>, standings: seq<string>, n: nat): nat
    requires n <= |picks| && n <= |standings|
  {
    if n == 0 then 0
    else Exact(picks, standings, n - 1) + if picks[n - 1] == standings[n - 1] then 1 else 0
  }

  /** A pick earns its share of the 30-point bonus: it is in the
      standings but not in its exact position. */
  predicate NearMiss(picks: seq<string>, standings: seq<string>, j: int)
    requires 0 <= j < |picks| && j < |standings|
  {
    picks[j] != standings[j] && AnyContains(standings, picks[j])
  }

  /** The 50-point pass over standings long enough for the picks: the
      field grows by 50 per exact pick, nothing else changes, and the
      tracker marks the near misses. */
  lemma {:induction false} FiftyPassSpec(doc: Doc, picks: seq<string>, standings: seq<string>, field50: string, i: nat)
    requires i <= |picks| && i <= |standings| && Get(doc, field50).Some?
    ensures FiftyPass(doc, picks, standings, field50, i).Ok?
    ensures var state := FiftyPass(doc, picks, standings, field50, i).value;
            && Get(state.0, field50) == Some(Get(doc, field50).value + Repeat(Exact(picks, standings, i), 50.0))
            && (forall k :: k != field50 ==> Get(state.0, k) == Get(doc, k))
            && |state.1| == i
            && forall j :: 0 <= j < i ==> state.1[j] == NearMiss(picks, standings, j)
  {
    if i > 0 {
      FiftyPassSpec(doc, picks, standings, field50, i - 1);
      var state := FiftyPass(doc, picks, standings, field50, i - 1).value;
      if picks[i - 1] == standings[i - 1] {
        InsertBonusSpec(state.0, field50, 50.0);
      }
    }
  }

  /** The 50-point pass where the field is missing: the first exact pick
      raises `KeyError`, so a pass that succeeds has found none and left
      the document alone. */
  lemma {:induction false} FiftyPassMissing(doc: Doc, picks: seq<string>, standings: seq<string>, field50: string, i: nat)
    requires i <= |picks| <= |standings| && Get(doc, field50) == None
    ensures var r := FiftyPass(doc, picks, standings, field50, i);
            && (r.Ok? ==> r.value.0 == doc && forall j :: 0 <= j < i ==> picks[j] != standings[j])
            && (r.Err? ==> r.error == KeyError)
  {
    if i > 0 {
      FiftyPassMissing(doc, picks, standings, field50, i - 1);
    }
  }

  /** An error stays an error for the rest of the picks. */
  lemma {:induction false} FiftyPassErr(doc: Doc, picks: seq<string>, standings: seq<string>, field50: string, i: nat, k: nat)
    requires i <= k <= |picks| && FiftyPass(doc, picks, standings, field50, i).Err?
    ensures FiftyPass(doc, picks, standings, field50, k) == FiftyPass(doc, picks, standings, field50, i)
    decreases k
  {
    if k > i {
      FiftyPassErr(doc, picks, standings, field50, i, k - 1);
    }
  }

  /** The 50-point pass over standings shorter than the picks raises
      `IndexError` at the first pick past their end, unless an insertion
      raised before. */
  lemma FiftyPassShort(doc: Doc, picks: seq<string>, standings: seq<string>, field50: string)
    requires |standings| < |picks| && Get(doc, field50).Some?
    ensures FiftyPass(doc, picks, standings, field50, |picks|) == Err(IndexError)
  {
    FiftyPassSpec(doc, picks, standings, field50, |standings|);
    FiftyPassErr(doc, picks, standings, field50, |standings| + 1, |picks|);
  }

  /** The 30-point pass: `bonus_30` grows by 10 per pick and nothing else
      changes; it fails only when the field is missing and there is a
      pick. */
  lemma {:induction false} ThirtyPassSpec(doc: Doc, n: nat)
    requires Get(doc, BonusField(10)).Some?
    ensures ThirtyPass(doc, n).Ok?
    ensures Get(ThirtyPass(doc, n).value, BonusField(10)) == Some(Get(doc, BonusField(10)).value + Repeat(n, 10.0))
    ensures forall k :: k != BonusField(10) ==> Get(ThirtyPass(doc, n).value, k) == Get(doc, k)
  {
    if n > 0 {
      ThirtyPassSpec(doc, n - 1);
      InsertBonusSpec(ThirtyPass(doc, n - 1).value, BonusField(10), 10.0);
    }
  }

  /** Every pick is a near miss. */
  predicate AllNearMiss(picks: seq<string>, standings: seq<string>)
    requires |picks| <= |standings|
  {
    forall j :: 0 <= j < |picks| ==> NearMiss(picks, standings, j)
  }

  /** The tracker of the 50-point pass over standings long enough for the
      picks is all true exactly when every pick is a near miss. */
  lemma TrackerNearMiss(doc: Doc, picks: seq<string>, standings: seq<string>)
    requires Get(doc, BonusField(50)).Some? && |picks| <= |standings|
    ensures FiftyPass(doc, picks, standings, BonusField(50), |picks|).Ok?
    ensures AllTrue(FiftyPass(doc, picks, standings, BonusField(50), |picks|).value.1)
            <==> AllNearMiss(picks, standings)
  {
    FiftyPassSpec(doc, picks, standings, BonusField(50), |picks|);
    var tracker := FiftyPass(doc, picks, standings, BonusField(50), |picks|).value.1;
    if AllTrue(tracker) {
      forall j | 0 <= j < |picks| ensures NearMiss(picks, standings, j) {
        assert tracker[j];
      }
    }
  }

  /** The unfolding of `CategoryBonusOf` over standings long enough for
      the picks: the 50-point pass succeeds, and the 30-point pass follows
      it exactly when every pick is a near miss. */
  lemma CategoryBonusSteps(doc: Doc, picks: seq<string>, standings: seq<string>)
    requires Get(doc, BonusField(50)).Some? && |picks| <= |standings|
    ensures FiftyPass(doc, picks, standings, BonusField(50), |picks|).Ok?
    ensures CategoryBonusOf(doc, picks, standings, BonusField(50))
            == if AllNearMiss(picks, standings)
               then ThirtyPass(FiftyPass(doc, picks, standings, BonusField(50), |picks|).value.0, |picks|)
               else Ok(FiftyPass(doc, picks, standings, BonusField(50), |picks|).value.0)
  {
    TrackerNearMiss(doc, picks, standings);
  }

  /** The bonus rules for one class over standings long enough for the
      picks, on a document that holds both bonus fields: `bonus_50` grows
      by 50 per exact pick, `bonus_30` by 10 per pick when every pick is a
      near miss, and no other field changes. */
  lemma CategoryBonusOk(doc: Doc, picks: seq<string>, standings: seq<string>)
    requires Get(doc, BonusField(50)).Some? && Get(doc, BonusField(10)).Some?
    requires |picks| <= |standings|
    ensures CategoryBonusOf(doc, picks, standings, BonusField(50)).Ok?
    ensures Get(CategoryBonusOf(doc, picks, standings, BonusField(50)).value, BonusField(50))
            == Some(Get(doc, BonusField(50)).value + Repeat(Exact(picks, standings, |picks|), 50.0))
    ensures Get(CategoryBonusOf(doc, picks, standings, BonusField(50)).value, BonusField(10))
            == Some(Get(doc, BonusField(10)).value
                    + if AllNearMiss(picks, standings) then Repeat(|picks|, 10.0) else 0.0)
    ensures forall k :: k != BonusField(50) && k != BonusField(10) ==>
              Get(CategoryBonusOf(doc, picks, standings, BonusField(50)).value, k) == Get(doc, k)
  {
    if AllNearMiss(picks, standings) {
      CategoryBonusNear(doc, picks, standings);
    } else {
      CategoryBonusFar(doc, picks, standings);
      assert Get(doc, BonusField(10)).value + 0.0 == Get(doc, BonusField(10)).value;
    }
  }

  /** `CategoryBonusOk` when every pick is a near miss. */
  lemma CategoryBonusNear(doc: Doc, picks: seq<string>, standings: seq<string>)
    requires Get(doc, BonusField(50)).Some? && Get(doc, BonusField(10)).Some?
    requires |picks| <= |standings| && AllNearMiss(picks, standings)
    ensures CategoryBonusOf(doc, picks, standings, BonusField(50)).Ok?
    ensures Get(CategoryBonusOf(doc, picks, standings, BonusField(50)).value, BonusField(50))
            == Some(Get(doc, BonusField(50)).value + Repeat(Exact(picks, standings, |picks|), 50.0))
    ensures Get(CategoryBonusOf(doc, picks, standings, BonusField(50)).value, BonusField(10))
            == Some(Get(doc, BonusField(10)).value + Repeat(|picks|, 10.0))
    ensures forall k :: k != BonusField(50) && k != BonusField(10) ==>
              Get(CategoryBonusOf(doc, picks, standings, BonusField(50)).value, k) == Get(doc, k)
  {
    CategoryBonusSteps(doc, picks, standings);
    FiftyPassSpec(doc, picks, standings, BonusField(50), |picks|);
    BonusFields();
    BonusAfterThirty(doc, FiftyPass(doc, picks, standings, BonusField(50), |picks|).value.0, |picks|);
  }

  /** `CategoryBonusOk` when some pick is not a near miss. */
  lemma CategoryBonusFar(doc: Doc, picks: seq<string>, standings: seq<string>)
    requires Get(doc, BonusField(50)).Some? && Get(doc, BonusField(10)).Some?
    requires |picks| <= |standings| && !AllNearMiss(picks, standings)
    ensures CategoryBonusOf(doc, picks, standings, BonusField(50)).Ok?
    ensures Get(CategoryBonusOf(doc, picks, standings, BonusField(50)).value, BonusField(50))
            == Some(Get(doc, BonusField(50)).value + Repeat(Exact(picks, standings, |picks|), 50.0))
    ensures Get(CategoryBonusOf(doc, picks, standings, BonusField(50)).value, BonusField(10))
            == Get(doc, BonusField(10))
    ensures forall k :: k != BonusField(50) && k != BonusField(10) ==>
              Get(CategoryBonusOf(doc, picks, standings, BonusField(50)).value, k) == Get(doc, k)
  {
    CategoryBonusSteps(doc, picks, standings);
    FiftyPassSpec(doc, picks, standings, BonusField(50), |picks|);
    BonusFields();
  }

  /** The 30-point pass over a document that differs from `doc` at most
      in `bonus_50`: `bonus_30` grows by 10 per pick, every other field
      keeps the value it had before the pass. */
  lemma BonusAfterThirty(doc: Doc, afterFifty: Doc, n: nat)
    requires Get(doc, BonusField(10)).Some?
    requires forall k :: k != BonusField(50) ==> Get(afterFifty, k) == Get(doc, k)
    ensures ThirtyPass(afterFifty, n).Ok?
    ensures Get(ThirtyPass(afterFifty, n).value, BonusField(10))
            == Some(Get(doc, BonusField(10)).value + Repeat(n, 10.0))
    ensures forall k :: k != BonusField(10) ==> Get(ThirtyPass(afterFifty, n).value, k) == Get(afterFifty, k)
  {
    BonusFields();
    ThirtyPassSpec(afterFifty, n);
  }

  /** The bonus rules for one class, on a document that holds both bonus
      fields, fail exactly when the standings are shorter than the picks,
      and then with `IndexError`. */
  lemma CategoryBonusFails(doc: Doc, picks: seq<string>, standings: seq<string>)
    requires Get(doc, BonusField(50)).Some? && Get(doc, BonusField(10)).Some?
    ensures CategoryBonusOf(doc, picks, standings, BonusField(50)).Ok? <==> |picks| <= |standings|
    ensures |picks| > |standings| ==> CategoryBonusOf(doc, picks, standings, BonusField(50)) == Err(IndexError)
  {
    if |picks| > |standings| {
      FiftyPassShort(doc, picks, standings, BonusField(50));
    } else {
      CategoryBonusOk(doc, picks, standings);
    }
  }

  /** The bonus rules for one class as written: on a document without the
      trailing-space field, a pick in its exact position (with the
      standings long enough) raises `KeyError`, where the intended field
      name succeeds. */
  lemma ExactPickFails(doc: Doc, picks: seq<string>, standings: seq<string>, j: int)
    requires Get(doc, BonusFieldAsWritten(50)) == None
    requires |picks| <= |standings| && 0 <= j < |picks| && picks[j] == standings[j]
    ensures CategoryBonusOf(doc, picks, standings, BonusFieldAsWritten(50)) == Err(KeyError)
  {
    var f := BonusFieldAsWritten(50);
    FiftyPassMissing(doc, picks, standings, f, |picks|);
  }

  /** Lines 219-240 for one player and one class, with the intended field
      names: the tracker is built pick by pick, each exact pick inserting
      its 50 points at once, then the 30-point bonus is inserted once per
      pick. */
  method CategoryBonus(player: PlayerDoc, picks: seq<string>, standings: seq<string>) returns (err: Option<Error>)
    modifies player
    ensures match CategoryBonusOf(old(player.fields), picks, standings, BonusField(50))
            case Ok(d) => err == None && player.fields == d
            case Err(e) => err == Some(e)
    ensures player.fields == CategoryBonusDoc(old(player.fields), picks, standings, BonusField(50))
  {
    ghost var doc := player.fields;
    var tracker: seq<bool> := [];
    for idx := 0 to |picks|
      invariant FiftyPass(doc, picks, standings, BonusField(50), idx) == Ok((player.fields, tracker))
    {
      if idx >= |standings| {
        FiftyPassErr(doc, picks, standings, BonusField(50), idx + 1, |picks|);
        FiftyDocStop(doc, picks, standings, BonusField(50), idx, |picks|);
        return Some(IndexError);
      }
      if picks[idx] == standings[idx] {
        err := InsertBonusPoint(player, 50);
        if err.Some? {
          FiftyPassErr(doc, picks, standings, BonusField(50), idx + 1, |picks|);
          FiftyDocStop(doc, picks, standings, BonusField(50), idx, |picks|);
          return;
        }
        tracker := tracker + [false];
      } else if AnyContains(standings, picks[idx]) {
        tracker := tracker + [true];
      } else {
        tracker := tracker + [false];
      }
    }
    if AllTrue(tracker) {
      ghost var start := player.fields;
      for k := 0 to |picks|
        invariant ThirtyPass(start, k) == Ok(player.fields)
      {
        err := InsertBonusPoint(player, 10);
        if err.Some? {
          ThirtyPassErr(start, k + 1, |picks|);
          ThirtyPassFails(start, k);
          ThirtyPassFails(start, k + 1);
          return;
        }
      }
    }
    err := None;
  }

  /** An error of the 30-point pass stays an error for the rest of the
      picks. */
  lemma {:induction false} ThirtyPassErr(doc: Doc, i: nat, k: nat)
    requires i <= k && ThirtyPass(doc, i).Err?
    ensures ThirtyPass(doc, k) == ThirtyPass(doc, i)
    decreases k
  {
    if k > i {
      ThirtyPassErr(doc, i, k - 1);
    }
  }

  /** The 30-point pass fails exactly when there is a pick and the
      document lacks `bonus_30`, so it fails before writing anything. */
  lemma ThirtyPassFails(doc: Doc, n: nat)
    ensures ThirtyPass(doc, n).Err? <==> n > 0 && Get(doc, BonusField(10)) == None
  {
    if Get(doc, BonusField(10)).Some? {
      ThirtyPassSpec(doc, n);
    } else if n > 0 {
      assert ThirtyPass(doc, 1) == InsertBonus(doc, BonusField(10), 10.0);
      ThirtyPassErr(doc, 1, n);
    }
  }

  /** Lines 225-234 for the first `i` picks, whether or not they raise:
      the document the 50-point pass leaves, where every insertion made
      before an error stays written. */
  function FiftyDoc(doc: Doc, picks: seq<string>, standings: seq<string>, field50: string, i: nat): (d: Doc)
    requires i <= |picks|
    ensures FiftyPass(doc, picks, standings, field50, i).Ok? ==> d == FiftyPass(doc, picks, standings, field50, i).value.0
  {
    if i == 0 then doc
    else if FiftyPass(doc, picks, standings, field50, i).Ok? then FiftyPass(doc, picks, standings, field50, i).value.0
    else FiftyDoc(doc, picks, standings, field50, i - 1)
  }

  /** When the pick after the first `i` raises, the document stays as the
      first `i` picks left it, however many picks follow. */
  lemma {:induction false} FiftyDocStop(doc: Doc, picks: seq<string>, standings: seq<string>, field50: string,
                                        i: nat, k: nat)
    requires i < k <= |picks|
    requires FiftyPass(doc, picks, standings, field50, i).Ok? && FiftyPass(doc, picks, standings, field50, i + 1).Err?
    ensures FiftyDoc(doc, picks, standings, field50, k) == FiftyPass(doc, picks, standings, field50, i).value.0
    decreases k
  {
    FiftyPassErr(doc, picks, standings, field50, i + 1, k);
    if k > i + 1 {
      FiftyDocStop(doc, picks, standings, field50, i, k - 1);
    }
  }

  /** Lines 219-240 for one player and one class, whether or not they
      raise: the document the rules leave, where each bonus inserted
      before an error stays written. */
  function CategoryBonusDoc(doc: Doc, picks: seq<string>, standings: seq<string>, field50: string): (d: Doc)
    ensures CategoryBonusOf(doc, picks, standings, field50).Ok? ==> d == CategoryBonusOf(doc, picks, standings, field50).value
  {
    var fifty := FiftyPass(doc, picks, standings, field50, |picks|);
    if fifty.Err? then FiftyDoc(doc, picks, standings, field50, |picks|)
    else if AllTrue(fifty.value.1) && ThirtyPass(fifty.value.0, |picks|).Ok? then ThirtyPass(fifty.value.0, |picks|).value
    else fifty.value.0
  }

  /** Over standings shorter than the picks, on a document with
      `bonus_50`, the rules raise, and the 50-point bonuses of the exact
      picks within the standings stay written: `bonus_50` grows by 50 for
      each of them and nothing else changes. */
  lemma CategoryBonusDocShort(doc: Doc, picks: seq<string>, standings: seq<string>)
    requires |standings| < |picks| && Get(doc, BonusField(50)).Some?
    ensures CategoryBonusOf(doc, picks, standings, BonusField(50)) == Err(IndexError)
    ensures var d := CategoryBonusDoc(doc, picks, standings, BonusField(50));
            && Get(d, BonusField(50)) == Some(Get(doc, BonusField(50)).value + Repeat(Exact(picks, standings, |standings|), 50.0))
            && forall k :: k != BonusField(50) ==> Get(d, k) == Get(doc, k)
  {
    var f := BonusField(50);
    FiftyPassSpec(doc, picks, standings, f, |standings|);
    FiftyPassShort(doc, picks, standings, f);
    assert FiftyPass(doc, picks, standings, f, |standings| + 1) == Err(IndexError);
    FiftyDocStop(doc, picks, standings, f, |standings|, |picks|);
  }

  /** The 50-point pass, whether or not it raises, raises only the bonus
      fields. */
  lemma {:induction false} FiftyDocOnly(doc: Doc, picks: seq<string>, standings: seq<string>, i: nat)
    requires i <= |picks|
    ensures BonusOnly(doc, FiftyDoc(doc, picks, standings, BonusField(50), i))
  {
    if i > 0 {
      if FiftyPass(doc, picks, standings, BonusField(50), i).Ok? {
        FiftyPassOnly(doc, picks, standings, i);
      } else {
        FiftyDocOnly(doc, picks, standings, i - 1);
      }
    }
  }

  /** The bonus rules for one class, whatever the document and the
      standings and whether or not they raise, raise only the bonus
      fields. */
  lemma CategoryBonusDocOnly(doc: Doc, picks: seq<string>, standings: seq<string>)
    ensures BonusOnly(doc, CategoryBonusDoc(doc, picks, standings, BonusField(50)))
  {
    var fifty := FiftyPass(doc, picks, standings, BonusField(50), |picks|);
    if fifty.Err? {
      FiftyDocOnly(doc, picks, standings, |picks|);
    } else {
      FiftyPassOnly(doc, picks, standings, |picks|);
      if AllTrue(fifty.value.1) && ThirtyPass(fifty.value.0, |picks|).Ok? {
        ThirtyPassOnly(fifty.value.0, |picks|);
        BonusOnlyTrans(doc, fifty.value.0, ThirtyPass(fifty.value.0, |picks|).value);
      }
    }
  }

  /** `d` is `doc` with at most its two bonus fields raised: every other
      field keeps its value, no field appears or disappears, and neither
      bonus field goes down. */
  ghost predicate BonusOnly(doc: Doc, d: Doc) {
    && (forall k :: k != BonusField(50) && k != BonusField(10) ==> Get(d, k) == Get(doc, k))
    && (forall k :: Get(d, k).Some? <==> Get(doc, k).Some?)
    && (Get(d, BonusField(50)).Some? ==> Get(d, BonusField(50)).value >= Get(doc, BonusField(50)).value)
    && (Get(d, BonusField(10)).Some? ==> Get(d, BonusField(10)).value >= Get(doc, BonusField(10)).value)
  }

  /** Raising the bonus fields twice raises only the bonus fields. */
  lemma BonusOnlyTrans(a: Doc, b: Doc, c: Doc)
    requires BonusOnly(a, b) && BonusOnly(b, c)
    ensures BonusOnly(a, c)
  {
  }

  /** A bonus inserted on a bonus field raises only that field. */
  lemma InsertBonusOnly(doc: Doc, bonus: int)
    requires InsertBonus(doc, BonusField(bonus), bonus as real).Ok? && bonus >= 0
    ensures BonusOnly(doc, InsertBonus(doc, BonusField(bonus), bonus as real).value)
  {
    BonusFields();
    InsertBonusSpec(doc, BonusField(bonus), bonus as real);
  }

  /** The 50-point pass, when it succeeds, raises only the bonus fields. */
  lemma {:induction false} FiftyPassOnly(doc: Doc, picks: seq<string>, standings: seq<string>, i: nat)
    requires i <= |picks| && FiftyPass(doc, picks, standings, BonusField(50), i).Ok?
    ensures BonusOnly(doc, FiftyPass(doc, picks, standings, BonusField(50), i).value.0)
  {
    if i > 0 {
      FiftyPassOnly(doc, picks, standings, i - 1);
      var state := FiftyPass(doc, picks, standings, BonusField(50), i - 1).value;
      var j := i - 1;
      if picks[j] == standings[j] {
        InsertBonusOnly(state.0, 50);
        BonusOnlyTrans(doc, state.0, FiftyPass(doc, picks, standings, BonusField(50), i).value.0);
      }
    }
  }

  /** The 30-point pass, when it succeeds, raises only the bonus fields. */
  lemma {:induction false} ThirtyPassOnly(doc: Doc, n: nat)
    requires ThirtyPass(doc, n).Ok?
    ensures BonusOnly(doc, ThirtyPass(doc, n).value)
  {
    if n > 0 {
      ThirtyPassOnly(doc, n - 1);
      var d := ThirtyPass(doc, n - 1).value;
      InsertBonusOnly(d, 10);
      BonusOnlyTrans(doc, d, ThirtyPass(doc, n).value);
    }
  }

  /** The bonus rules for one class, whatever the document and the
      standings, raise only the bonus fields when they succeed. */
  lemma CategoryBonusOnly(doc: Doc, picks: seq<string>, standings: seq<string>)
    requires CategoryBonusOf(doc, picks, standings, BonusField(50)).Ok?
    ensures BonusOnly(doc, CategoryBonusOf(doc, picks, standings, BonusField(50)).value)
  {
    FiftyPassOnly(doc, picks, standings, |picks|);
    var state := FiftyPass(doc, picks, standings, BonusField(50), |picks|).value;
    if AllTrue(state.1) {
      ThirtyPassOnly(state.0, |picks|);
      BonusOnlyTrans(doc, state.0, ThirtyPass(state.0, |picks|).value);
    }
  }
}
