/** The table helpers of `DataWrangler` in utils/DataWrangler.py. A table is
    a sequence of named columns of optional lap times (`None` for a
    missing value); the row labels are left out except where a helper
    sets them. */
module Wrangler {
  import opened Wrappers
  import opened Dicts
  import Metrics

  /** One column of a table. */
  datatype Column = Column(name: string, cells: seq<Option<real>>)

  /** A table, column by column. */
  type Frame = seq<Column>

  /** The column labels, in order. */
  function Names(df: Frame): (r: seq<string>)
    ensures |r| == |df|
    ensures forall i :: 0 <= i < |r| ==> r[i] == df[i].name
  {
    seq(|df|, i requires 0 <= i < |df| => df[i].name)
  }

  // ---------------------------------------------------------------------
  // drop_column

  /** The columns not labelled `col`, in order. */
  function OtherColumns(df: Frame, col: string): Frame {
    if df == [] then []
    else (if df[0].name == col then [] else [df[0]]) + OtherColumns(df[1..], col)
  }

  /** `drop_column`: an unknown label raises `KeyError`; otherwise every
      column with that label goes. */
  function DropColumn(df: Frame, col: string): Result<Frame> {
    if col !in Names(df) then Err(KeyError) else Ok(OtherColumns(df, col))
  }

  /** Dropping keeps exactly the other columns, in their order. */
  lemma OtherColumnsSpec(df: Frame, col: string)
    ensures forall c :: c in OtherColumns(df, col) <==> c in df && c.name != col
    ensures col !in Names(df) ==> OtherColumns(df, col) == df
  {
    OtherColumnsMembers(df, col);
    if col !in Names(df) {
      forall i | 0 <= i < |df| ensures df[i].name != col {
        assert Names(df)[i] == df[i].name;
      }
      OtherColumnsKeep(df, col);
    }
  }

  /** The columns kept are the columns with another label. */
  lemma {:induction false} OtherColumnsMembers(df: Frame, col: string)
    ensures forall c :: c in OtherColumns(df, col) <==> c in df && c.name != col
  {
    if df != [] {
      OtherColumnsMembers(df[1..], col);
      assert df == [df[0]] + df[1..];
    }
  }

  /** Without a column labelled `col`, every column is kept. */
  lemma {:induction false} OtherColumnsKeep(df: Frame, col: string)
    requires forall i :: 0 <= i < |df| ==> df[i].name != col
    ensures OtherColumns(df, col) == df
  {
    if df != [] {
      OtherColumnsKeep(df[1..], col);
      assert df == [df[0]] + df[1..];
    }
  }

  /** `drop_column` fails exactly on an unknown label, and otherwise leaves
      the columns with another label and only those. */
  lemma DropColumnSpec(df: Frame, col: string)
    ensures DropColumn(df, col).Err? <==> col !in Names(df)
    ensures DropColumn(df, col).Err? ==> DropColumn(df, col).error == KeyError
    ensures DropColumn(df, col).Ok? ==>
              forall c :: c in DropColumn(df, col).value <==> c in df && c.name != col
  {
    OtherColumnsSpec(df, col);
  }

  // ---------------------------------------------------------------------
  // mask_df

  /** A value below `lo` or above `hi` becomes missing. */
  function MaskCell(c: Option<real>, lo: real, hi: real): Option<real> {
    match c
    case None => None
    case Some(v) => if v < lo || v > hi then None else c
  }

  /** `mask_df`: every cell masked, labels and shape unchanged. */
  function Mask(df: Frame, lo: real, hi: real): Frame {
    seq(|df|, i requires 0 <= i < |df| =>
      Column(df[i].name, seq(|df[i].cells|, j requires 0 <= j < |df[i].cells| => MaskCell(df[i].cells[j], lo, hi))))
  }

  /** A cell is missing after masking iff it was missing or out of range;
      every other cell, every label and the shape are unchanged. */
  lemma MaskSpec(df: Frame, lo: real, hi: real)
    ensures |Mask(df, lo, hi)| == |df|
    ensures forall i :: 0 <= i < |df| ==>
              Mask(df, lo, hi)[i].name == df[i].name && |Mask(df, lo, hi)[i].cells| == |df[i].cells|
    ensures forall i, j :: 0 <= i < |df| && 0 <= j < |df[i].cells| ==>
              (Mask(df, lo, hi)[i].cells[j].None? <==>
                 df[i].cells[j].None? || df[i].cells[j].value < lo || df[i].cells[j].value > hi)
    ensures forall i, j :: 0 <= i < |df| && 0 <= j < |df[i].cells| && Mask(df, lo, hi)[i].cells[j].Some? ==>
              Mask(df, lo, hi)[i].cells[j] == df[i].cells[j]
  {
  }

  /** Masking twice with the same bounds masks nothing more. */
  lemma MaskIdempotent(df: Frame, lo: real, hi: real)
    ensures Mask(Mask(df, lo, hi), lo, hi) == Mask(df, lo, hi)
  {
    var m := Mask(df, lo, hi);
    forall i | 0 <= i < |df| ensures Mask(m, lo, hi)[i] == m[i] {
      assert Mask(m, lo, hi)[i].cells == m[i].cells;
    }
  }

  // ---------------------------------------------------------------------
  // minimum_of_all_columns

  /** The smaller of two optional values, skipping a missing one. */
  function MinOf(a: Option<real>, b: Option<real>): Option<real> {
    if a.None? then b
    else if b.None? then a
    else if b.value < a.value then b
    else a
  }

  /** `df[col].min()`: the least present value of a column. */
  function ColumnMin(cells: seq<Option<real>>): Option<real> {
    if cells == [] then None else MinOf(cells[0], ColumnMin(cells[1..]))
  }

  /** The least present value is present and below every present value;
      there is none only when every cell is missing. */
  lemma {:induction false} ColumnMinSpec(cells: seq<Option<real>>)
    ensures ColumnMin(cells).None? <==> forall j :: 0 <= j < |cells| ==> cells[j].None?
    ensures ColumnMin(cells).Some? ==> ColumnMin(cells) in cells
    ensures forall j :: 0 <= j < |cells| && cells[j].Some? ==> ColumnMin(cells).Some? && ColumnMin(cells).value <= cells[j].value
  {
    if cells != [] {
      ColumnMinSpec(cells[1..]);
      assert forall j :: 1 <= j < |cells| ==> cells[j] == cells[1..][j - 1];
    }
  }

  /** `df.min()` from column `i` on, with the position of its first
      column reaching it (`idxmin`). */
  function ArgMinFrom(df: Frame, i: nat): (r: Option<(real, nat)>)
    requires i <= |df|
    ensures r.Some? ==> i <= r.value.1 < |df|
    decreases |df| - i
  {
    if i == |df| then None
    else
      var rest := ArgMinFrom(df, i + 1);
      match ColumnMin(df[i].cells)
      case None => rest
      case Some(m) => if rest.Some? && rest.value.0 < m then rest else Some((m, i))
  }

  /** `ArgMinFrom` finds the least column minimum and its first column. */
  lemma {:induction false} ArgMinFromSpec(df: Frame, i: nat)
    requires i <= |df|
    ensures var r := ArgMinFrom(df, i);
            && (r.None? <==> forall k :: i <= k < |df| ==> ColumnMin(df[k].cells).None?)
            && (r.Some? ==> i <= r.value.1 < |df| && ColumnMin(df[r.value.1].cells) == Some(r.value.0))
            && (r.Some? ==> forall k :: i <= k < |df| && ColumnMin(df[k].cells).Some? ==> r.value.0 <= ColumnMin(df[k].cells).value)
            && (r.Some? ==> forall k :: i <= k < r.value.1 ==> ColumnMin(df[k].cells) != Some(r.value.0))
    decreases |df| - i
  {
    if i < |df| {
      ArgMinFromSpec(df, i + 1);
    }
  }

  /** `minimum_of_all_columns`: the least value of the table and the label
      of the first column holding it; a table without any value raises
      `ValueError`. */
  function MinimumOfAllColumns(df: Frame): Result<(real, string)> {
    match ArgMinFrom(df, 0)
    case None => Err(ValueError)
    case Some((v, k)) => Ok((v, df[k].name))
  }

  /** The minimum is a value of the column returned and no present value
      of the table is below it; the column is the first whose least value
      it is. Without any present value the call raises. */
  lemma MinimumOfAllColumnsSpec(df: Frame) returns (k: nat)
    ensures MinimumOfAllColumns(df).Err? <==> forall i, j :: 0 <= i < |df| && 0 <= j < |df[i].cells| ==> df[i].cells[j].None?
    ensures MinimumOfAllColumns(df).Ok? ==>
              var (v, name) := MinimumOfAllColumns(df).value;
              && k < |df| && name == df[k].name && Some(v) in df[k].cells
              && (forall i, j :: 0 <= i < |df| && 0 <= j < |df[i].cells| && df[i].cells[j].Some? ==> v <= df[i].cells[j].value)
              && (forall i :: 0 <= i < k ==> ColumnMin(df[i].cells) != Some(v))
  {
    ArgMinFromSpec(df, 0);
    forall i | 0 <= i < |df| {
      ColumnMinSpec(df[i].cells);
    }
    k := if ArgMinFrom(df, 0).Some? then ArgMinFrom(df, 0).value.1 else 0;
  }

  // ---------------------------------------------------------------------
  // Sorting by an optional key, missing keys last.

  /** The order of `sort_values`: missing keys after every present one. */
  predicate KeyLe(a: Option<real>, b: Option<real>) {
    b.None? || (a.Some? && a.value <= b.value)
  }

  predicate SortedBy<T>(xs: seq<T>, key: T -> Option<real>) {
    forall i, j :: 0 <= i < j < |xs| ==> KeyLe(key(xs[i]), key(xs[j]))
  }

  /** Insertion into a sorted list, before the first element whose key is
      not smaller. */
  function Insert<T>(x: T, xs: seq<T>, key: T -> Option<real>): seq<T> {
    if xs == [] then [x]
    else if KeyLe(key(x), key(xs[0])) then [x] + xs
    else [xs[0]] + Insert(x, xs[1..], key)
  }

  function Sort<T>(xs: seq<T>, key: T -> Option<real>): seq<T> {
    if xs == [] then [] else Insert(xs[0], Sort(xs[1..], key), key)
  }

  lemma {:induction false} InsertCount<T>(x: T, xs: seq<T>, key: T -> Option<real>)
    ensures multiset(Insert(x, xs, key)) == multiset(xs) + multiset{x}
  {
    if xs != [] && !KeyLe(key(x), key(xs[0])) {
      InsertCount(x, xs[1..], key);
      assert xs == [xs[0]] + xs[1..];
    }
  }

  /** The tail of a sorted list is sorted. */
  lemma SortedTail<T>(xs: seq<T>, key: T -> Option<real>)
    requires xs != [] && SortedBy(xs, key)
    ensures SortedBy(xs[1..], key)
  {
    var tail := xs[1..];
    forall i, j | 0 <= i < j < |tail| ensures KeyLe(key(tail[i]), key(tail[j])) {
      assert tail[i] == xs[i + 1] && tail[j] == xs[j + 1];
    }
  }

  /** A list sorted after its head, with the head below every element, is
      sorted. */
  lemma SortedCons<T>(y: T, r: seq<T>, key: T -> Option<real>)
    requires SortedBy(r, key)
    requires forall j :: 0 <= j < |r| ==> KeyLe(key(y), key(r[j]))
    ensures SortedBy([y] + r, key)
  {
    var out := [y] + r;
    forall i, j | 0 <= i < j < |out| ensures KeyLe(key(out[i]), key(out[j])) {
      assert out[j] == r[j - 1];
      if i > 0 {
        assert out[i] == r[i - 1];
      }
    }
  }

  lemma {:induction false} InsertSpec<T>(x: T, xs: seq<T>, key: T -> Option<real>)
    requires SortedBy(xs, key)
    ensures SortedBy(Insert(x, xs, key), key)
    ensures multiset(Insert(x, xs, key)) == multiset(xs) + multiset{x}
  {
    InsertCount(x, xs, key);
    if xs == [] {
    } else if KeyLe(key(x), key(xs[0])) {
      forall j | 0 <= j < |xs| ensures KeyLe(key(x), key(xs[j])) {
        if j > 0 {
          assert KeyLe(key(xs[0]), key(xs[j]));
        }
      }
      SortedCons(x, xs, key);
    } else {
      var tail := xs[1..];
      SortedTail(xs, key);
      InsertSpec(x, tail, key);
      var r := Insert(x, tail, key);
      InsertCount(x, tail, key);
      forall j | 0 <= j < |r| ensures KeyLe(key(xs[0]), key(r[j])) {
        assert r[j] in multiset(r);
        if r[j] != x {
          assert r[j] in multiset(tail);
          var k :| 0 <= k < |tail| && tail[k] == r[j];
          assert tail[k] == xs[k + 1];
        }
      }
      SortedCons(xs[0], r, key);
    }
  }

  /** The sort orders by key ... */
  lemma {:induction false} SortSorted<T>(xs: seq<T>, key: T -> Option<real>)
    ensures SortedBy(Sort(xs, key), key)
  {
    if xs != [] {
      SortSorted(xs[1..], key);
      InsertSpec(xs[0], Sort(xs[1..], key), key);
    }
  }

  /** ... and only reorders. */
  lemma {:induction false} SortCount<T>(xs: seq<T>, key: T -> Option<real>)
    ensures multiset(Sort(xs, key)) == multiset(xs)
  {
    if xs != [] {
      SortCount(xs[1..], key);
      InsertCount(xs[0], Sort(xs[1..], key), key);
      assert xs == [xs[0]] + xs[1..];
    }
  }

  /** The sort orders by key and only reorders. */
  lemma SortSpec<T>(xs: seq<T>, key: T -> Option<real>)
    ensures SortedBy(Sort(xs, key), key)
    ensures multiset(Sort(xs, key)) == multiset(xs)
    ensures |Sort(xs, key)| == |xs|
  {
    SortSorted(xs, key);
    SortCount(xs, key);
    assert |Sort(xs, key)| == |multiset(Sort(xs, key))|;
  }

  // ---------------------------------------------------------------------
  // dropna and median

  /** `.dropna().values`: the present values, in order. */
  function DropMissing(cells: seq<Option<real>>): seq<real> {
    if cells == [] then []
    else (if cells[0].Some? then [cells[0].value] else []) + DropMissing(cells[1..])
  }

  /** Dropping keeps exactly the present values. */
  lemma {:induction false} DropMissingSpec(cells: seq<Option<real>>)
    ensures forall v :: v in DropMissing(cells) <==> Some(v) in cells
    ensures |DropMissing(cells)| <= |cells|
  {
    if cells != [] {
      DropMissingSpec(cells[1..]);
      assert cells == [cells[0]] + cells[1..];
    }
  }

  /** Dropping distributes over concatenation: the order is kept. */
  lemma {:induction false} DropMissingAppend(a: seq<Option<real>>, b: seq<Option<real>>)
    ensures DropMissing(a + b) == DropMissing(a) + DropMissing(b)
  {
    if a != [] {
      DropMissingAppend(a[1..], b);
      assert (a + b)[1..] == a[1..] + b;
    } else {
      assert a + b == b;
    }
  }

  /** A column without missing values drops nothing. */
  lemma {:induction false} DropMissingPresent(xs: seq<real>)
    ensures DropMissing(seq(|xs|, i requires 0 <= i < |xs| => Some(xs[i]))) == xs
  {
    if xs != [] {
      DropMissingPresent(xs[1..]);
      var cells := seq(|xs|, i requires 0 <= i < |xs| => Some(xs[i]));
      assert cells[1..] == seq(|xs| - 1, i requires 0 <= i < |xs| - 1 => Some(xs[1..][i]));
    }
  }

  /** A value as a sort key. */
  function Present(v: real): Option<real> {
    Some(v)
  }

  /** `median()`: the middle of the sorted values, or the mean of the two
      middle ones; no values give a missing median. */
  function Median(values: seq<real>): Option<real> {
    var s := Sort(values, Present);
    var n := |s|;
    if n == 0 then None
    else if n % 2 == 1 then Some(s[n / 2])
    else Some((s[n / 2 - 1] + s[n / 2]) / 2.0)
  }

  /** A median exists iff there are values, and it lies between the least
      and the greatest of them. */
  lemma MedianSpec(values: seq<real>)
    ensures Median(values).Some? <==> |values| > 0
    ensures Median(values).Some? ==>
              (exists i :: 0 <= i < |values| && values[i] <= Median(values).value) &&
              (exists j :: 0 <= j < |values| && Median(values).value <= values[j])
  {
    var s := Sort(values, Present);
    SortSpec(values, Present);
    var n := |s|;
    if n > 0 {
      var m := Median(values).value;
      assert s[0] <= m <= s[n - 1] by {
        assert KeyLe(Present(s[0]), Present(s[n / 2])) || n / 2 == 0;
        assert KeyLe(Present(s[n / 2]), Present(s[n - 1])) || n / 2 == n - 1;
        if n % 2 == 0 {
          assert KeyLe(Present(s[0]), Present(s[n / 2 - 1])) || n / 2 - 1 == 0;
        }
      }
      assert s[0] in multiset(values) && s[n - 1] in multiset(values);
      var i :| 0 <= i < |values| && values[i] == s[0];
      var j :| 0 <= j < |values| && values[j] == s[n - 1];
    }
  }

  /** The median of a column's present values. */
  function ColumnMedian(c: Column): Option<real> {
    Median(DropMissing(c.cells))
  }

  // ---------------------------------------------------------------------
  // median_of_all_columns

  /** `df.median()`: each column's median, missing for a column without
      values. */
  function ColumnMedians(df: Frame): seq<Option<real>> {
    seq(|df|, i requires 0 <= i < |df| => ColumnMedian(df[i]))
  }

  /** `median_of_all_columns`: the median of the column medians, the
      missing ones skipped. */
  function MedianOfAllColumns(df: Frame): Option<real> {
    Median(DropMissing(ColumnMedians(df)))
  }

  /** A column has a median exactly when one of its cells is present. */
  lemma ColumnMedianSome(c: Column)
    ensures ColumnMedian(c).Some? <==> exists v :: Some(v) in c.cells
  {
    MedianSpec(DropMissing(c.cells));
    DropMissingSpec(c.cells);
    if exists v :: Some(v) in c.cells {
      var v :| Some(v) in c.cells;
      assert v in DropMissing(c.cells);
    }
  }

  /** The single median exists exactly when some cell of the table is
      present. */
  lemma MedianOfAllColumnsSome(df: Frame)
    ensures MedianOfAllColumns(df).Some? <==> exists i, v :: 0 <= i < |df| && Some(v) in df[i].cells
  {
    var ms := ColumnMedians(df);
    var vs := DropMissing(ms);
    DropMissingSpec(ms);
    MedianSpec(vs);
    if exists i, v :: 0 <= i < |df| && Some(v) in df[i].cells {
      var i, v :| 0 <= i < |df| && Some(v) in df[i].cells;
      ColumnMedianSome(df[i]);
      assert ms[i] == ColumnMedian(df[i]);
      assert ms[i].value in vs;
    }
    if |vs| > 0 {
      assert Some(vs[0]) in ms;
      var i :| 0 <= i < |ms| && ms[i] == Some(vs[0]);
      ColumnMedianSome(df[i]);
    }
  }

  /** The single median lies between the least and the greatest column
      median. */
  lemma MedianOfAllColumnsBounds(df: Frame)
    requires MedianOfAllColumns(df).Some?
    ensures exists i :: 0 <= i < |df| && ColumnMedian(df[i]).Some? &&
              ColumnMedian(df[i]).value <= MedianOfAllColumns(df).value
    ensures exists j :: 0 <= j < |df| && ColumnMedian(df[j]).Some? &&
              MedianOfAllColumns(df).value <= ColumnMedian(df[j]).value
  {
    var ms := ColumnMedians(df);
    var vs := DropMissing(ms);
    DropMissingSpec(ms);
    MedianSpec(vs);
    var m := MedianOfAllColumns(df).value;
    var a :| 0 <= a < |vs| && vs[a] <= m;
    var b :| 0 <= b < |vs| && m <= vs[b];
    assert Some(vs[a]) in ms && Some(vs[b]) in ms;
    var i :| 0 <= i < |ms| && ms[i] == Some(vs[a]);
    var j :| 0 <= j < |ms| && ms[j] == Some(vs[b]);
    assert ColumnMedian(df[i]) == ms[i] && ColumnMedian(df[j]) == ms[j];
  }

  // ---------------------------------------------------------------------
  // sort_by_median

  /** `sort_by_median`: the columns ordered by median, columns without a
      median last, with their labels. */
  function SortByMedian(df: Frame): (Frame, seq<string>) {
    var sorted := Sort(df, ColumnMedian);
    (sorted, Names(sorted))
  }

  /** The columns come back reordered, not changed, in non-decreasing
      median, and the labels are theirs. */
  lemma SortByMedianSpec(df: Frame)
    ensures multiset(SortByMedian(df).0) == multiset(df)
    ensures |SortByMedian(df).0| == |df|
    ensures SortedBy(SortByMedian(df).0, ColumnMedian)
    ensures SortByMedian(df).1 == Names(SortByMedian(df).0)
  {
    SortSpec(df, ColumnMedian);
  }

  // ---------------------------------------------------------------------
  // make_histogram_data

  /** `df[name]`: the cells of the first column with that label, or
      `KeyError`. */
  function Lookup(df: Frame, name: string): (r: Result<seq<Option<real>>>)
    ensures r.Err? <==> name !in Names(df)
    ensures r.Err? ==> r.error == KeyError
  {
    if df == [] then Err(KeyError)
    else if df[0].name == name then Ok(df[0].cells)
    else
      assert Names(df) == [df[0].name] + Names(df[1..]);
      Lookup(df[1..], name)
  }

  /** `df[name].dropna().values`. */
  function ColumnValues(df: Frame): string -> Result<seq<real>> {
    name => match Lookup(df, name)
            case Err(e) => Err(e)
            case Ok(cells) => Ok(DropMissing(cells))
  }

  /** `make_histogram_data`: the present values of each requested column,
      in request order; an unknown label raises `KeyError`. */
  method MakeHistogramData(df: Frame, columnNames: seq<string>) returns (r: Result<seq<seq<real>>>)
    ensures r == MapAll(ColumnValues(df), columnNames)
  {
    var outList: seq<seq<real>> := [];
    var i := 0;
    assert columnNames[i..] == columnNames;
    PrependAssoc([], [], MapAll(ColumnValues(df), columnNames));
    while i < |columnNames|
      invariant 0 <= i <= |columnNames|
      invariant MapAll(ColumnValues(df), columnNames) == Prepend(outList, MapAll(ColumnValues(df), columnNames[i..]))
    {
      var values := ColumnValues(df)(columnNames[i]);
      if values.Err? {
        assert columnNames[i..][0] == columnNames[i];
        return Err(values.error);
      }
      MapAllStep(ColumnValues(df), columnNames, i);
      PrependAssoc(outList, [values.value], MapAll(ColumnValues(df), columnNames[i + 1..]));
      outList := outList + [values.value];
      i := i + 1;
    }
    assert MapAll(ColumnValues(df), columnNames[i..]) == Ok([]);
    assert outList + [] == outList;
    return Ok(outList);
  }

  /** One list per requested label, in order, holding the present values of
      that column; any unknown label raises `KeyError`. */
  lemma HistogramDataSpec(df: Frame, columnNames: seq<string>)
    ensures MapAll(ColumnValues(df), columnNames).Err? <==> exists i :: 0 <= i < |columnNames| && columnNames[i] !in Names(df)
    ensures MapAll(ColumnValues(df), columnNames).Err? ==> MapAll(ColumnValues(df), columnNames).error == KeyError
    ensures MapAll(ColumnValues(df), columnNames).Ok? ==>
              var out := MapAll(ColumnValues(df), columnNames).value;
              |out| == |columnNames| &&
              forall i :: 0 <= i < |out| ==> out[i] == DropMissing(Lookup(df, columnNames[i]).value)
  {
    MapAllSpec(ColumnValues(df), columnNames);
  }

  // ---------------------------------------------------------------------
  // relative_freq_hist_calculation

  /** Each column's label with the histogram of its present values, all
      over the same bounds and bin count. `hist` is the relative-frequency
      histogram of the metrics calculator. */
  function HistPairs<H>(df: Frame, lowBin: real, highBin: real, binNum: int,
                        hist: (seq<real>, real, real, int) -> H): (ps: seq<(string, H)>)
    ensures |ps| == |df|
    ensures forall i :: 0 <= i < |df| ==> ps[i] == (df[i].name, hist(DropMissing(df[i].cells), lowBin, highBin, binNum))
  {
    seq(|df|, i requires 0 <= i < |df| => (df[i].name, hist(DropMissing(df[i].cells), lowBin, highBin, binNum)))
  }

  /** `relative_freq_hist_calculation`: `out_dict[col] = res` for every
      column in order. */
  method RelativeFreqHist<H(==)>(df: Frame, lowBin: real, highBin: real, binNum: int,
                                 hist: (seq<real>, real, real, int) -> H) returns (outDict: Dict<string, H>)
    ensures outDict == DictOf(HistPairs(df, lowBin, highBin, binNum, hist))
  {
    ghost var ps := HistPairs(df, lowBin, highBin, binNum, hist);
    outDict := [];
    var i := 0;
    while i < |df|
      invariant 0 <= i <= |df|
      invariant outDict == DictOf(ps[..i])
    {
      var values := DropMissing(df[i].cells);
      var res := hist(values, lowBin, highBin, binNum);
      assert ps[..i + 1][..i] == ps[..i];
      outDict := Put(outDict, df[i].name, res);
      i := i + 1;
    }
    assert ps[..i] == ps;
  }

  /** The histograms are keyed by the column labels in order, each label
      once; a label that occurs once holds the histogram of its column. */
  lemma RelativeFreqHistSpec<H>(df: Frame, lowBin: real, highBin: real, binNum: int,
                                hist: (seq<real>, real, real, int) -> H, i: int)
    requires 0 <= i < |df| && forall j :: 0 <= j < |df| && j != i ==> df[j].name != df[i].name
    ensures var out := DictOf(HistPairs(df, lowBin, highBin, binNum, hist));
            && IsDict(out)
            && Keys(out) == Dedup(Names(df))
            && Get(out, df[i].name) == Some(hist(DropMissing(df[i].cells), lowBin, highBin, binNum))
  {
    var ps := HistPairs(df, lowBin, highBin, binNum, hist);
    DictOfIsDict(ps);
    DictOfKeys(ps);
    assert Keys(ps) == Names(df);
    DictOfLast(ps, i);
  }

  // ---------------------------------------------------------------------
  // bhattacharyya_coefficients

  /** What the histogram call gives for each rider: its first element holds
      the relative frequency of every bin. */
  type Histograms = Dict<string, seq<seq<real>>>

  /** The coefficient cell of riders `a` and `b`: 0 for a rider with
      itself; otherwise the coefficient of the first elements of their
      histograms, where an empty histogram raises `IndexError`. */
  function Coefficient(a: (string, seq<seq<real>>), b: (string, seq<seq<real>>), sqrt: real -> real): Result<real> {
    if a.0 == b.0 then Ok(0.0)
    else if |a.1| == 0 || |b.1| == 0 then Err(IndexError)
    else Metrics.Bhattacharyya(a.1[0], b.1[0], sqrt)
  }

  /** The row of rider `a`: its coefficient with every rider, in key
      order. */
  function Row(data: Histograms, a: (string, seq<seq<real>>), sqrt: real -> real): Result<seq<real>> {
    MapAll(b => Coefficient(a, b, sqrt), data)
  }

  /** The labelled row of rider `a`. */
  function LabelledRow(data: Histograms, sqrt: real -> real): ((string, seq<seq<real>>)) -> Result<(string, seq<real>)> {
    a => match Row(data, a, sqrt)
         case Err(e) => Err(e)
         case Ok(row) => Ok((a.0, row))
  }

  /** All rows, in key order. */
  function Coefficients(data: Histograms, sqrt: real -> real): Result<Dict<string, seq<real>>> {
    MapAll(LabelledRow(data, sqrt), data)
  }

  /** The inner loop of `bhattacharyya_coefficients` for rider `a`. */
  method CoefficientRow(data: Histograms, a: (string, seq<seq<real>>), sqrt: real -> real) returns (r: Result<seq<real>>)
    ensures r == Row(data, a, sqrt)
  {
    ghost var f := b => Coefficient(a, b, sqrt);
    var row: seq<real> := [];
    var j := 0;
    assert data[j..] == data;
    PrependAssoc([], [], MapAll(f, data));
    while j < |data|
      invariant 0 <= j <= |data|
      invariant MapAll(f, data) == Prepend(row, MapAll(f, data[j..]))
    {
      var bc: real;
      if a.0 == data[j].0 {
        bc := 0.0;
      } else {
        var c := Coefficient(a, data[j], sqrt);
        if c.Err? {
          assert data[j..][0] == data[j];
          return Err(c.error);
        }
        bc := c.value;
      }
      assert f(data[j]) == Ok(bc);
      MapAllStep(f, data, j);
      PrependAssoc(row, [bc], MapAll(f, data[j + 1..]));
      row := row + [bc];
      j := j + 1;
    }
    assert MapAll(f, data[j..]) == Ok([]);
    assert row + [] == row;
    return Ok(row);
  }

  /** `bhattacharyya_coefficients`: for every rider, in key order, its row
      of coefficients. */
  method BhattacharyyaCoefficients(data: Histograms, sqrt: real -> real) returns (r: Result<Dict<string, seq<real>>>)
    ensures r == Coefficients(data, sqrt)
  {
    var riderCoeffs: Dict<string, seq<real>> := [];
    var i := 0;
    assert data[i..] == data;
    PrependAssoc([], [], MapAll(LabelledRow(data, sqrt), data));
    while i < |data|
      invariant 0 <= i <= |data|
      invariant MapAll(LabelledRow(data, sqrt), data) == Prepend(riderCoeffs, MapAll(LabelledRow(data, sqrt), data[i..]))
    {
      var row := CoefficientRow(data, data[i], sqrt);
      if row.Err? {
        assert data[i..][0] == data[i];
        return Err(row.error);
      }
      assert LabelledRow(data, sqrt)(data[i]) == Ok((data[i].0, row.value));
      MapAllStep(LabelledRow(data, sqrt), data, i);
      PrependAssoc(riderCoeffs, [(data[i].0, row.value)], MapAll(LabelledRow(data, sqrt), data[i + 1..]));
      riderCoeffs := riderCoeffs + [(data[i].0, row.value)];
      i := i + 1;
    }
    assert MapAll(LabelledRow(data, sqrt), data[i..]) == Ok([]);
    assert riderCoeffs + [] == riderCoeffs;
    return Ok(riderCoeffs);
  }

  /** The cell in row `i`, column `j` of the coefficients. */
  lemma CoefficientAt(data: Histograms, sqrt: real -> real, i: int, j: int) returns (c: real)
    requires Coefficients(data, sqrt).Ok? && 0 <= i < |data| && 0 <= j < |data|
    ensures |Coefficients(data, sqrt).value| == |data|
    ensures Coefficients(data, sqrt).value[i].0 == data[i].0
    ensures |Coefficients(data, sqrt).value[i].1| == |data|
    ensures Coefficients(data, sqrt).value[i].1[j] == c
    ensures Coefficient(data[i], data[j], sqrt) == Ok(c)
  {
    var rows := Coefficients(data, sqrt).value;
    MapAllAt(LabelledRow(data, sqrt), data, i);
    var row := Row(data, data[i], sqrt).value;
    MapAllAt(b => Coefficient(data[i], b, sqrt), data, j);
    c := row[j];
  }

  /** A square table of rows: one row per key, each as long as the
      dict, with a zero diagonal, symmetric. */
  predicate SymmetricRows(rows: Dict<string, seq<real>>) {
    && (forall i :: 0 <= i < |rows| ==> |rows[i].1| == |rows|)
    && (forall i :: 0 <= i < |rows| ==> rows[i].1[i] == 0.0)
    && (forall i, j :: 0 <= i < |rows| && 0 <= j < |rows| ==> rows[i].1[j] == rows[j].1[i])
  }

  /** Every rider gets a row with one cell per rider, in key order; the
      diagonal is 0 and the table is symmetric. */
  lemma CoefficientsSymmetric(data: Histograms, sqrt: real -> real)
    requires IsDict(data) && Coefficients(data, sqrt).Ok?
    ensures Keys(Coefficients(data, sqrt).value) == Keys(data)
    ensures SymmetricRows(Coefficients(data, sqrt).value)
  {
    var rows := Coefficients(data, sqrt).value;
    MapAllLength(LabelledRow(data, sqrt), data);
    forall i | 0 <= i < |rows|
      ensures rows[i].0 == data[i].0 && |rows[i].1| == |data| && rows[i].1[i] == 0.0
    {
      var c := CoefficientAt(data, sqrt, i, i);
    }
    forall i, j | 0 <= i < |rows| && 0 <= j < |rows|
      ensures rows[i].1[j] == rows[j].1[i]
    {
      var c := CoefficientAt(data, sqrt, i, j);
      var c' := CoefficientAt(data, sqrt, j, i);
      if i != j {
        assert Keys(data)[i] != Keys(data)[j];
        Metrics.BhattacharyyaSymmetric(data[i].1[0], data[j].1[0], sqrt);
      }
    }
  }

  /** Off the diagonal, a cell is the coefficient of the first elements of
      the two riders' histograms, both present. */
  lemma CoefficientOffDiagonal(data: Histograms, sqrt: real -> real, i: int, j: int)
    requires IsDict(data) && Coefficients(data, sqrt).Ok?
    requires 0 <= i < |data| && 0 <= j < |data| && i != j
    ensures |data[i].1| > 0 && |data[j].1| > 0
    ensures |Coefficients(data, sqrt).value| == |data| && |Coefficients(data, sqrt).value[i].1| == |data|
    ensures Metrics.Bhattacharyya(data[i].1[0], data[j].1[0], sqrt) == Ok(Coefficients(data, sqrt).value[i].1[j])
  {
    var c := CoefficientAt(data, sqrt, i, j);
    assert Keys(data)[i] != Keys(data)[j];
  }

  // ---------------------------------------------------------------------
  // dataframe_from_dictionary

  /** A table with labelled rows. */
  datatype Table = Table(index: seq<string>, columns: Frame)

  /** The length of the longest list. */
  function MaxLen(data: Dict<string, seq<real>>): nat {
    if data == [] then 0
    else
      var rest := MaxLen(data[1..]);
      if |data[0].1| > rest then |data[0].1| else rest
  }

  /** A list as a column of `n` cells, missing after its end. */
  function Padded(xs: seq<real>, n: nat): seq<Option<real>> {
    seq(n, j requires 0 <= j < n => if j < |xs| then Some(xs[j]) else None)
  }

  /** `dataframe_from_dictionary`: one column per key, padded to the
      longest list, rows labelled by the keys; the labels must be as many
      as the rows, or `ValueError`. */
  function DataframeFromDictionary(data: Dict<string, seq<real>>): Result<Table> {
    var n := MaxLen(data);
    if n != |data| then Err(ValueError)
    else Ok(Table(Keys(data), seq(|data|, i requires 0 <= i < |data| => Column(data[i].0, Padded(data[i].1, n)))))
  }

  /** Every list has exactly `n` values. */
  lemma {:induction false} MaxLenUniform(data: Dict<string, seq<real>>, n: nat)
    requires data != [] && forall i :: 0 <= i < |data| ==> |data[i].1| == n
    ensures MaxLen(data) == n
  {
    if |data| > 1 {
      MaxLenUniform(data[1..], n);
    }
  }

  /** The table has the keys as row and column labels, in order, and cell
      (row `keys[j]`, column `keys[i]`) is `data[keys[i]][j]`; it is
      refused exactly when the longest list is not as long as the dict. */
  lemma DataframeSpec(data: Dict<string, seq<real>>)
    ensures DataframeFromDictionary(data).Err? <==> MaxLen(data) != |data|
    ensures DataframeFromDictionary(data).Ok? ==>
              var t := DataframeFromDictionary(data).value;
              && t.index == Keys(data) && Names(t.columns) == Keys(data)
              && (forall i :: 0 <= i < |data| ==> |t.columns[i].cells| == |data|)
              && (forall i, j :: 0 <= i < |data| && 0 <= j < |data| ==>
                    t.columns[i].cells[j] == if j < |data[i].1| then Some(data[i].1[j]) else None)
  {
  }

  /** The table of a square, symmetric set of rows is built, with the
      keys as labels, a diagonal of 0 and symmetric cells. */
  lemma SymmetricTable(rows: Dict<string, seq<real>>)
    requires SymmetricRows(rows)
    ensures DataframeFromDictionary(rows).Ok?
    ensures var t := DataframeFromDictionary(rows).value;
            && t.index == Keys(rows) && Names(t.columns) == Keys(rows)
            && (forall i :: 0 <= i < |rows| ==> t.columns[i].cells[i] == Some(0.0))
            && (forall i, j :: 0 <= i < |rows| && 0 <= j < |rows| ==> t.columns[i].cells[j] == t.columns[j].cells[i])
  {
    if rows != [] {
      MaxLenUniform(rows, |rows|);
    }
    DataframeSpec(rows);
  }

  /** The coefficient heat map: the table is built, labelled by the riders,
      with a diagonal of 0, and it is symmetric. */
  lemma HeatmapSymmetric(data: Histograms, sqrt: real -> real)
    requires IsDict(data) && Coefficients(data, sqrt).Ok?
    ensures DataframeFromDictionary(Coefficients(data, sqrt).value).Ok?
    ensures var t := DataframeFromDictionary(Coefficients(data, sqrt).value).value;
            && t.index == Keys(data) && Names(t.columns) == Keys(data)
            && (forall i :: 0 <= i < |data| ==> t.columns[i].cells[i] == Some(0.0))
            && (forall i, j :: 0 <= i < |data| && 0 <= j < |data| ==> t.columns[i].cells[j] == t.columns[j].cells[i])
  {
    CoefficientsSymmetric(data, sqrt);
    SymmetricTable(Coefficients(data, sqrt).value);
  }
}
