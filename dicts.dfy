/** Python's insertion-ordered `dict`, as a sequence of key/value pairs with
    distinct keys. Assigning to a present key keeps its position; assigning
    to a new key appends it; `del` removes the pair. */
module Dicts {
  import opened Wrappers

  type Dict<K, V> = seq<(K, V)>

  /** The keys in insertion order (`list(d)`). */
  function Keys<K(==), V(==)>(d: Dict<K, V>): (ks: seq<K>)
    ensures |ks| == |d|
    ensures forall i :: 0 <= i < |d| ==> ks[i] == d[i].0
  {
    if d == [] then [] else [d[0].0] + Keys(d[1..])
  }

  /** The values in insertion order (`list(d.values())`). */
  function Values<K(==), V(==)>(d: Dict<K, V>): (vs: seq<V>)
    ensures |vs| == |d|
    ensures forall i :: 0 <= i < |d| ==> vs[i] == d[i].1
  {
    seq(|d|, i requires 0 <= i < |d| => d[i].1)
  }

  predicate Distinct<T(==)>(s: seq<T>) {
    forall i, j :: 0 <= i < j < |s| ==> s[i] != s[j]
  }

  /** A well-formed dictionary: no key twice. */
  predicate IsDict<K(==), V(==)>(d: Dict<K, V>) {
    Distinct(Keys(d))
  }

  /** `d.get(k)`: the value stored under `k`. */
  function Get<K(==), V(==)>(d: Dict<K, V>, k: K): Option<V> {
    if d == [] then None
    else if d[0].0 == k then Some(d[0].1)
    else Get(d[1..], k)
  }

  /** `d.get(k)` finds a value exactly for the keys of `d`. */
  lemma {:induction false} GetSome<K, V>(d: Dict<K, V>, k: K)
    ensures Get(d, k).Some? <==> k in Keys(d)
  {
    if d != [] {
      assert Keys(d) == [d[0].0] + Keys(d[1..]);
      GetSome(d[1..], k);
    }
  }

  /** Dropping the first pair of a dictionary leaves a dictionary. */
  lemma TailIsDict<K, V>(d: Dict<K, V>)
    requires IsDict(d) && d != []
    ensures IsDict(d[1..])
  {
    var t := d[1..];
    assert forall i :: 0 <= i < |t| ==> Keys(t)[i] == Keys(d)[i + 1];
  }

  /** In a well-formed dictionary the pair at position `i` is what `Get`
      finds for its key. */
  lemma {:induction false} GetAt<K, V>(d: Dict<K, V>, i: int)
    requires IsDict(d) && 0 <= i < |d|
    ensures Get(d, d[i].0) == Some(d[i].1)
  {
    if i > 0 {
      assert Keys(d)[0] != Keys(d)[i];
      TailIsDict(d);
      GetAt(d[1..], i - 1);
    }
  }

  /** `d[k] = v`: the pair of a present key gets the new value in place, a
      new key is appended. */
  function Put<K(==), V(==)>(d: Dict<K, V>, k: K, v: V): (r: Dict<K, V>)
    decreases |d|
  {
    if d == [] then [(k, v)]
    else if d[0].0 == k then [(k, v)] + d[1..]
    else [d[0]] + Put(d[1..], k, v)
  }

  /** Assignment keeps the keys distinct and adds `k` at the end if it is new. */
  lemma PutKeys<K, V>(d: Dict<K, V>, k: K, v: V)
    ensures IsDict(d) ==> IsDict(Put(d, k, v))
    ensures Keys(Put(d, k, v)) == if k in Keys(d) then Keys(d) else Keys(d) + [k]
  {
    PutKeysOrder(d, k, v);
    if IsDict(d) && k !in Keys(d) {
      var ks := Keys(d) + [k];
      forall i, j | 0 <= i < j < |ks|
        ensures ks[i] != ks[j]
      {
        if j == |ks| - 1 {
          assert ks[i] in Keys(d);
        }
      }
    }
  }

  /** The keys after an assignment: the same keys when `k` is one of
      them, `k` added at the end otherwise. */
  lemma {:induction false} PutKeysOrder<K, V>(d: Dict<K, V>, k: K, v: V)
    ensures Keys(Put(d, k, v)) == if k in Keys(d) then Keys(d) else Keys(d) + [k]
  {
    var r := Put(d, k, v);
    if d == [] {
      assert Keys(r) == [k] + Keys(r[1..]);
    } else {
      assert Keys(d) == [d[0].0] + Keys(d[1..]);
      assert Keys(r) == [r[0].0] + Keys(r[1..]);
      if d[0].0 != k {
        assert r[1..] == Put(d[1..], k, v);
        PutKeysOrder(d[1..], k, v);
        if k !in Keys(d) {
          assert Keys(r) == Keys(d) + [k];
        }
      } else {
        assert r[1..] == d[1..];
      }
    }
  }

  /** Assignment stores `v` under `k`. */
  lemma {:induction false} PutGetSame<K, V>(d: Dict<K, V>, k: K, v: V)
    ensures Get(Put(d, k, v), k) == Some(v)
  {
    if d != [] && d[0].0 != k {
      var r := Put(d, k, v);
      assert r[1..] == Put(d[1..], k, v);
      PutGetSame(d[1..], k, v);
    }
  }

  /** Assignment leaves every other key's value alone. */
  lemma {:induction false} PutGetOther<K, V>(d: Dict<K, V>, k: K, v: V, k': K)
    requires k' != k
    ensures Get(Put(d, k, v), k') == Get(d, k')
  {
    var r := Put(d, k, v);
    if d == [] {
      assert r[1..] == [];
    } else if d[0].0 == k {
      assert r[1..] == d[1..];
    } else if d[0].0 != k' {
      assert r[1..] == Put(d[1..], k, v);
      PutGetOther(d[1..], k, v, k');
    }
  }

  /** Assigning a key twice keeps only the second value. */
  lemma {:induction false} PutPut<K, V>(d: Dict<K, V>, k: K, v: V, w: V)
    ensures Put(Put(d, k, v), k, w) == Put(d, k, w)
    decreases |d|
  {
    if d != [] && d[0].0 != k {
      PutPut(d[1..], k, v, w);
      assert Put(d, k, v)[1..] == Put(d[1..], k, v);
    }
  }

  /** Assigning a key the value it already has changes nothing. */
  lemma {:induction false} PutExisting<K, V>(d: Dict<K, V>, k: K)
    requires Get(d, k).Some?
    ensures Put(d, k, Get(d, k).value) == d
    decreases |d|
  {
    if d[0].0 != k {
      PutExisting(d[1..], k);
      assert d == [d[0]] + d[1..];
    }
  }

  /** `del d[k]`. */
  function Remove<K(==), V(==)>(d: Dict<K, V>, k: K): (r: Dict<K, V>)
    ensures |r| <= |d|
  {
    if d == [] then []
    else if d[0].0 == k then Remove(d[1..], k)
    else [d[0]] + Remove(d[1..], k)
  }

  /** The pairs of `d` whose key is not in `ks`, in order. */
  function Without<K(==), V(==)>(d: Dict<K, V>, ks: seq<K>): (r: Dict<K, V>)
    ensures |r| <= |d|
  {
    if d == [] then []
    else if d[0].0 in ks then Without(d[1..], ks)
    else [d[0]] + Without(d[1..], ks)
  }

  /** Deleting one more key removes it from what is left. */
  lemma {:induction false} RemoveWithout<K, V>(d: Dict<K, V>, ks: seq<K>, k: K)
    ensures Remove(Without(d, ks), k) == Without(d, ks + [k])
  {
    if d != [] {
      RemoveWithout(d[1..], ks, k);
    }
  }

  /** Deleting no key of `d` leaves it unchanged. */
  lemma {:induction false} WithoutNothing<K, V>(d: Dict<K, V>, ks: seq<K>)
    requires forall i :: 0 <= i < |d| ==> d[i].0 !in ks
    ensures Without(d, ks) == d
  {
    if d != [] {
      WithoutNothing(d[1..], ks);
    }
  }

  /** The keys whose value fails `keep`, in order. */
  function KeysFailing<K(==), V(==)>(d: Dict<K, V>, keep: V -> bool): (r: seq<K>)
    ensures forall i :: 0 <= i < |r| ==> r[i] in Keys(d)
  {
    if d == [] then []
    else
      assert Keys(d) == [d[0].0] + Keys(d[1..]);
      (if keep(d[0].1) then [] else [d[0].0]) + KeysFailing(d[1..], keep)
  }

  /** Only the keys of `d` matter to `Without`. */
  lemma {:induction false} WithoutSameKeys<K, V>(d: Dict<K, V>, ks: seq<K>, ks': seq<K>)
    requires forall i :: 0 <= i < |d| ==> (d[i].0 in ks <==> d[i].0 in ks')
    ensures Without(d, ks) == Without(d, ks')
  {
    if d != [] {
      WithoutSameKeys(d[1..], ks, ks');
    }
  }

  /** The keys of `ks` with repeats dropped, each at its first occurrence. */
  function Dedup<T(==)>(ks: seq<T>): (r: seq<T>) {
    if ks == [] then []
    else
      var p := Dedup(ks[..|ks| - 1]);
      var x := ks[|ks| - 1];
      if x in p then p else p + [x]
  }

  /** `Dedup` keeps exactly the elements of `ks`, each once. */
  lemma {:induction false} DedupSpec<T>(ks: seq<T>)
    ensures Distinct(Dedup(ks))
    ensures forall i :: 0 <= i < |ks| ==> ks[i] in Dedup(ks)
    ensures forall x :: x in Dedup(ks) ==> x in ks
  {
    if ks != [] {
      var ks' := ks[..|ks| - 1];
      DedupSpec(ks');
      assert ks == ks' + [ks[|ks| - 1]];
    }
  }

  /** A list without repeats is its own de-duplication. */
  lemma {:induction false} DedupDistinct<T>(ks: seq<T>)
    requires Distinct(ks)
    ensures Dedup(ks) == ks
  {
    if ks != [] {
      var ks' := ks[..|ks| - 1];
      DedupDistinct(ks');
      assert ks == ks' + [ks[|ks| - 1]];
    }
  }

  /** `zip(ks, vs)`: pairs up to the shorter of the two lists. */
  function Zip<K, V>(ks: seq<K>, vs: seq<V>): (ps: seq<(K, V)>)
    ensures |ps| == if |ks| < |vs| then |ks| else |vs|
    ensures forall i :: 0 <= i < |ps| ==> ps[i] == (ks[i], vs[i])
  {
    if ks == [] || vs == [] then [] else [(ks[0], vs[0])] + Zip(ks[1..], vs[1..])
  }

  /** `dict(pairs)`: the pairs assigned in order, a later pair overwriting
      an earlier one with the same key. */
  function DictOf<K(==), V(==)>(ps: seq<(K, V)>): Dict<K, V> {
    if ps == [] then []
    else
      var last := ps[|ps| - 1];
      Put(DictOf(ps[..|ps| - 1]), last.0, last.1)
  }

  /** `dict(zip(ks, vs))`. */
  function FromPairs<K(==), V(==)>(ks: seq<K>, vs: seq<V>): Dict<K, V> {
    DictOf(Zip(ks, vs))
  }

  lemma KeysPrefix<K, V>(ps: seq<(K, V)>, n: nat)
    requires n <= |ps|
    ensures Keys(ps[..n]) == Keys(ps)[..n]
  {
  }

  /** The keys of `dict(pairs)` are the paired keys in order of first
      occurrence. */
  lemma {:induction false} DictOfKeys<K, V>(ps: seq<(K, V)>)
    ensures Keys(DictOf(ps)) == Dedup(Keys(ps))
  {
    if ps != [] {
      var n := |ps|;
      var ps' := ps[..n - 1];
      DictOfKeys(ps');
      KeysPrefix(ps, n - 1);
      PutKeys(DictOf(ps'), ps[n - 1].0, ps[n - 1].1);
    }
  }

  /** `dict(pairs)` is well formed. */
  lemma DictOfIsDict<K, V>(ps: seq<(K, V)>)
    ensures IsDict(DictOf(ps))
  {
    DictOfKeys(ps);
    DedupSpec(Keys(ps));
  }

  /** Each key of `dict(pairs)` holds the value of its LAST pair. */
  lemma {:induction false} DictOfLast<K, V>(ps: seq<(K, V)>, i: int)
    requires 0 <= i < |ps|
    requires forall j :: i < j < |ps| ==> ps[j].0 != ps[i].0
    ensures Get(DictOf(ps), ps[i].0) == Some(ps[i].1)
  {
    var n := |ps|;
    var ps' := ps[..n - 1];
    var d := DictOf(ps');
    DictOfIsDict(ps');
    if i == n - 1 {
      PutGetSame(d, ps[i].0, ps[i].1);
    } else {
      PutGetOther(d, ps[n - 1].0, ps[n - 1].1, ps[i].0);
      assert ps'[i] == ps[i];
      DictOfLast(ps', i);
    }
  }

  /** The dictionary built by `dict(zip(ks, vs))` is well formed, its keys
      are the paired keys in order of first occurrence, and each key holds
      the value paired with its LAST occurrence among the paired keys. */
  lemma FromPairsSpec<K, V>(ks: seq<K>, vs: seq<V>)
    ensures IsDict(FromPairs(ks, vs))
    ensures Keys(FromPairs(ks, vs)) == Dedup(ks[..if |ks| < |vs| then |ks| else |vs|])
    ensures forall i :: 0 <= i < |ks| && i < |vs| && (forall j :: i < j < |ks| && j < |vs| ==> ks[j] != ks[i]) ==>
              Get(FromPairs(ks, vs), ks[i]) == Some(vs[i])
  {
    var ps := Zip(ks, vs);
    DictOfIsDict(ps);
    DictOfKeys(ps);
    assert Keys(ps) == ks[..|ps|];
    forall i | 0 <= i < |ks| && i < |vs| && (forall j :: i < j < |ks| && j < |vs| ==> ks[j] != ks[i])
      ensures Get(FromPairs(ks, vs), ks[i]) == Some(vs[i])
    {
      DictOfLast(ps, i);
    }
  }

  /** With distinct keys, the i-th key holds the i-th value. */
  lemma FromPairsDistinct<K, V>(ks: seq<K>, vs: seq<V>, i: int)
    requires Distinct(ks) && 0 <= i < |ks| && i < |vs|
    ensures Get(FromPairs(ks, vs), ks[i]) == Some(vs[i])
  {
    FromPairsSpec(ks, vs);
  }

  /** The pairs whose value satisfies `keep`, in order (deleting the others). */
  function FilterValues<K(==), V(==)>(d: Dict<K, V>, keep: V -> bool): (r: Dict<K, V>)
    ensures |r| <= |d|
    ensures forall i :: 0 <= i < |r| ==> r[i] in d && keep(r[i].1)
    ensures forall i :: 0 <= i < |d| && keep(d[i].1) ==> d[i] in r
  {
    if d == [] then []
    else
      assert d == [d[0]] + d[1..];
      if keep(d[0].1) then [d[0]] + FilterValues(d[1..], keep) else FilterValues(d[1..], keep)
  }

  /** Deleting the keys whose value fails `keep` leaves exactly the pairs
      whose value passes it. */
  lemma {:induction false} WithoutFailing<K, V>(d: Dict<K, V>, keep: V -> bool)
    requires IsDict(d)
    ensures Without(d, KeysFailing(d, keep)) == FilterValues(d, keep)
  {
    if d != [] {
      var t := d[1..];
      TailIsDict(d);
      WithoutFailing(t, keep);
      var ks := KeysFailing(d, keep);
      var ks' := KeysFailing(t, keep);
      forall i | 0 <= i < |t| ensures t[i].0 in ks <==> t[i].0 in ks' {
        assert Keys(d)[0] != Keys(d)[i + 1];
      }
      WithoutSameKeys(t, ks, ks');
    }
  }

  /** `KeysFailing` grows by one pair at a time, as a scan over `d.items()`. */
  lemma {:induction false} KeysFailingAppend<K, V>(d: Dict<K, V>, p: (K, V), keep: V -> bool)
    ensures KeysFailing(d + [p], keep) == KeysFailing(d, keep) + (if keep(p.1) then [] else [p.0])
  {
    if d != [] {
      assert (d + [p])[1..] == d[1..] + [p];
      KeysFailingAppend(d[1..], p, keep);
    }
  }

  /** The first key of a dictionary does not occur again. */
  lemma HeadNotInTail<K, V>(d: Dict<K, V>)
    requires IsDict(d) && d != []
    ensures d[0].0 !in Keys(d[1..])
  {
    var t := Keys(d[1..]);
    forall j | 0 <= j < |t| ensures t[j] != d[0].0 {
      assert Keys(d)[0] != Keys(d)[j + 1];
    }
  }

  /** Filtering adds no key. */
  lemma {:induction false} FilterNoNewKey<K, V>(d: Dict<K, V>, keep: V -> bool, k: K)
    requires k !in Keys(d)
    ensures k !in Keys(FilterValues(d, keep))
  {
    if d != [] {
      assert Keys(d) == [d[0].0] + Keys(d[1..]);
      FilterNoNewKey(d[1..], keep, k);
      var t := FilterValues(d[1..], keep);
      assert Keys([d[0]] + t) == [d[0].0] + Keys(t);
    }
  }

  /** Filtering by value keeps a dictionary well formed. */
  lemma {:induction false} FilterIsDict<K, V>(d: Dict<K, V>, keep: V -> bool)
    requires IsDict(d)
    ensures IsDict(FilterValues(d, keep))
  {
    if d != [] {
      TailIsDict(d);
      FilterIsDict(d[1..], keep);
      var t := FilterValues(d[1..], keep);
      HeadNotInTail(d);
      FilterNoNewKey(d[1..], keep, d[0].0);
      if keep(d[0].1) {
        var r := [d[0]] + t;
        assert Keys(r) == [d[0].0] + Keys(t);
      }
    }
  }

  /** Filtering by value keeps exactly the pairs whose value passes. */
  lemma {:induction false} FilterValuesGet<K, V>(d: Dict<K, V>, keep: V -> bool, k: K)
    requires IsDict(d)
    ensures Get(FilterValues(d, keep), k) == if Get(d, k).Some? && keep(Get(d, k).value) then Get(d, k) else None
  {
    if d != [] {
      var t := d[1..];
      TailIsDict(d);
      FilterValuesGet(t, keep, k);
      var ft := FilterValues(t, keep);
      assert FilterValues(d, keep) == if keep(d[0].1) then [d[0]] + ft else ft;
      if d[0].0 == k {
        HeadNotInTail(d);
        FilterNoNewKey(t, keep, k);
        GetSome(ft, k);
        assert Get(ft, k).None?;
      } else if keep(d[0].1) {
        assert ([d[0]] + ft)[1..] == ft;
      }
    }
  }
}
