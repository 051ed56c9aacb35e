/** Option and Result types shared by every module of the model.
    Python exceptions are values of `Error`: a member that raises in the
    source returns `Err(...)` here. */
module Wrappers {

  datatype Option<T> = None | Some(value: T) {
    /** Python's `d.get(k, default)` style fallback. */
    function GetOr(default: T): T {
      if Some? then value else default
    }
  }

  /** The exceptions the modelled code can raise. */
  datatype Error =
    | IndexError      // a list index or pop out of range
    | ValueError      // int()/float() of a malformed string, numpy length checks
    | KeyError        // a dict lookup of a missing key
    | AttributeError  // `.to_dict()` of a Firestore document that does not exist
    | UrlError        // urlopen failing with something other than HTTPError
    | TypeError       // iterating `None`

  datatype Result<T> = Ok(value: T) | Err(error: Error)

  /** Apply `f` to every element, stopping at the first element whose
      result is an error (a Python list comprehension whose body raises). */
  function MapAll<A, B>(f: A -> Result<B>, xs: seq<A>): Result<seq<B>> {
    if xs == [] then Ok([])
    else
      match f(xs[0])
      case Err(e) => Err(e)
      case Ok(y) =>
        match MapAll(f, xs[1..])
        case Err(e) => Err(e)
        case Ok(ys) => Ok([y] + ys)
  }

  /** `MapAll` succeeds iff `f` succeeds on every element, with the results
      in order; otherwise it reports the error of the first failing element. */
  lemma {:induction false} MapAllSpec<A, B>(f: A -> Result<B>, xs: seq<A>)
    ensures var r := MapAll(f, xs);
            && (r.Ok? <==> forall i :: 0 <= i < |xs| ==> f(xs[i]).Ok?)
            && (r.Ok? ==> |r.value| == |xs| && forall i :: 0 <= i < |xs| ==> r.value[i] == f(xs[i]).value)
            && (r.Err? ==> exists i :: 0 <= i < |xs| && f(xs[i]) == Err(r.error) &&
                                      forall j :: 0 <= j < i ==> f(xs[j]).Ok?)
  {
    if xs != [] {
      MapAllSpec(f, xs[1..]);
      assert forall j :: 1 <= j < |xs| ==> xs[j] == xs[1..][j - 1];
      if f(xs[0]).Ok? && MapAll(f, xs[1..]).Err? {
        var i :| 0 <= i < |xs[1..]| && f(xs[1..][i]) == Err(MapAll(f, xs).error) &&
                 forall j :: 0 <= j < i ==> f(xs[1..][j]).Ok?;
        assert f(xs[i + 1]) == Err(MapAll(f, xs).error);
      }
    }
  }

  /** A successful `MapAll` has one result per element ... */
  lemma {:induction false} MapAllLength<A, B>(f: A -> Result<B>, xs: seq<A>)
    requires MapAll(f, xs).Ok?
    ensures |MapAll(f, xs).value| == |xs|
  {
    if xs != [] {
      MapAllLength(f, xs[1..]);
    }
  }

  /** ... and the `i`-th result is that of the `i`-th element. */
  lemma {:induction false} MapAllAt<A, B>(f: A -> Result<B>, xs: seq<A>, i: nat)
    requires MapAll(f, xs).Ok? && i < |xs|
    ensures |MapAll(f, xs).value| == |xs|
    ensures f(xs[i]) == Ok(MapAll(f, xs).value[i])
  {
    MapAllLength(f, xs);
    if i > 0 {
      MapAllAt(f, xs[1..], i - 1);
    }
  }

  /** `acc` followed by the value of `r`, or the error of `r`. */
  function Prepend<T>(acc: seq<T>, r: Result<seq<T>>): (r': Result<seq<T>>)
    ensures r'.Ok? <==> r.Ok?
    ensures r.Ok? ==> r'.value == acc + r.value
    ensures r.Err? ==> r'.error == r.error
  {
    match r
    case Ok(v) => Ok(acc + v)
    case Err(e) => Err(e)
  }

  /** Prepending nothing changes nothing; prepending twice prepends the
      concatenation. */
  lemma PrependAssoc<T>(a: seq<T>, b: seq<T>, r: Result<seq<T>>)
    ensures Prepend([], r) == r
    ensures Prepend(a, Prepend(b, r)) == Prepend(a + b, r)
  {
    if r.Ok? {
      assert [] + r.value == r.value;
      assert a + (b + r.value) == (a + b) + r.value;
    }
  }

  /** The loop shape of `MapAll`: after `i` elements were mapped into `acc`,
      the whole result is `acc` prepended to the result on the rest. */
  lemma {:induction false} MapAllStep<A, B>(f: A -> Result<B>, xs: seq<A>, i: nat)
    requires i < |xs| && f(xs[i]).Ok?
    ensures MapAll(f, xs[i..]) == Prepend([f(xs[i]).value], MapAll(f, xs[i + 1..]))
  {
    assert xs[i..][1..] == xs[i + 1..];
  }

  /** The loop shape of `MapAll` from the front: one more element that
      succeeds extends the results ... */
  lemma MapAllExtend<A, B>(f: A -> Result<B>, xs: seq<A>, i: nat, acc: seq<B>)
    requires i < |xs| && MapAll(f, xs[..i]) == Ok(acc) && f(xs[i]).Ok?
    ensures MapAll(f, xs[..i + 1]) == Ok(acc + [f(xs[i]).value])
  {
    assert xs[..i + 1] == xs[..i] + [xs[i]];
    MapAllConcat(f, xs[..i], [xs[i]]);
    assert [xs[i]][1..] == [];
    var y := f(xs[i]).value;
    assert [y] + [] == [y];
    assert MapAll(f, [xs[i]]) == Ok([y]);
  }

  /** ... and one that fails is the error of the whole. */
  lemma MapAllFail<A, B>(f: A -> Result<B>, xs: seq<A>, i: nat, acc: seq<B>)
    requires i < |xs| && MapAll(f, xs[..i]) == Ok(acc) && f(xs[i]).Err?
    ensures MapAll(f, xs) == Err(f(xs[i]).error)
  {
    assert xs == xs[..i] + xs[i..];
    MapAllConcat(f, xs[..i], xs[i..]);
    assert xs[i..][0] == xs[i];
  }

  /** Mapping a concatenation maps the first part, then the second: the
      first error of `a` wins, otherwise the results are concatenated. */
  lemma {:induction false} MapAllConcat<A, B>(f: A -> Result<B>, a: seq<A>, b: seq<A>)
    ensures MapAll(f, a + b) == match MapAll(f, a)
                                case Err(e) => Err(e)
                                case Ok(x) => Prepend(x, MapAll(f, b))
  {
    if a != [] {
      assert (a + b)[0] == a[0] && (a + b)[1..] == a[1..] + b;
      MapAllConcat(f, a[1..], b);
      if f(a[0]).Ok? && MapAll(f, a[1..]).Ok? && MapAll(f, b).Ok? {
        var y, x, v := f(a[0]).value, MapAll(f, a[1..]).value, MapAll(f, b).value;
        assert [y] + (x + v) == ([y] + x) + v;
      }
    } else {
      assert a + b == b;
      match MapAll(f, b)
      case Ok(v) => assert [] + v == v;
      case Err(_) =>
    }
  }
}
