/** `MetricsCalculator` of fp_analysis/Metrics.py: the Bhattacharyya
    coefficient of two relative-frequency histograms and the length guard
    of the Kullback-Leibler divergence. The square root is a parameter
    that obeys the laws of the non-negative square root. */
module Metrics {
  import opened Wrappers

  /** `x` squared. */
  function Square(x: real): real {
    x * x
  }

  /** `sqrt` is never negative and undoes squaring on the non-negative
      reals. */
  ghost predicate SqrtLaws(sqrt: real -> real) {
    && (forall x :: sqrt(x) >= 0.0)
    && (forall x :: x >= 0.0 ==> sqrt(Square(x)) == x)
  }

  /** Under the laws, the root of 0 is 0. */
  lemma SqrtZero(sqrt: real -> real)
    requires SqrtLaws(sqrt)
    ensures sqrt(0.0) == 0.0
  {
    assert Square(0.0) == 0.0;
  }

  /** Python's `sum`. */
  function Sum(xs: seq<real>): real {
    if xs == [] then 0.0 else xs[0] + Sum(xs[1..])
  }

  /** `np.sum(np.sqrt(p*q))` on arrays of equal length. */
  function RootSum(p: seq<real>, q: seq<real>, sqrt: real -> real): real
    requires |p| == |q|
  {
    if p == [] then 0.0 else sqrt(p[0] * q[0]) + RootSum(p[1..], q[1..], sqrt)
  }

  /** `calculate_bhattacharyya_coefficient`: histograms of different
      lengths raise `ValueError`. */
  function Bhattacharyya(p: seq<real>, q: seq<real>, sqrt: real -> real): (r: Result<real>)
    ensures r.Err? <==> |p| != |q|
    ensures r.Err? ==> r.error == ValueError
  {
    if |p| != |q| then Err(ValueError) else Ok(RootSum(p, q, sqrt))
  }

  /** The coefficient is symmetric in its histograms, the error included. */
  lemma {:induction false} BhattacharyyaSymmetric(p: seq<real>, q: seq<real>, sqrt: real -> real)
    ensures Bhattacharyya(p, q, sqrt) == Bhattacharyya(q, p, sqrt)
  {
    if |p| == |q| {
      RootSumSymmetric(p, q, sqrt);
    }
  }

  lemma {:induction false} RootSumSymmetric(p: seq<real>, q: seq<real>, sqrt: real -> real)
    requires |p| == |q|
    ensures RootSum(p, q, sqrt) == RootSum(q, p, sqrt)
  {
    if p != [] {
      RootSumSymmetric(p[1..], q[1..], sqrt);
      assert p[0] * q[0] == q[0] * p[0];
    }
  }

  /** All entries at least 0. */
  predicate NonNegative(p: seq<real>) {
    forall i :: 0 <= i < |p| ==> p[i] >= 0.0
  }

  /** The coefficient is never negative. */
  lemma {:induction false} BhattacharyyaNonNegative(p: seq<real>, q: seq<real>, sqrt: real -> real)
    requires SqrtLaws(sqrt) && |p| == |q|
    ensures Bhattacharyya(p, q, sqrt).value >= 0.0
  {
    RootSumNonNegative(p, q, sqrt);
  }

  lemma {:induction false} RootSumNonNegative(p: seq<real>, q: seq<real>, sqrt: real -> real)
    requires SqrtLaws(sqrt) && |p| == |q|
    ensures RootSum(p, q, sqrt) >= 0.0
  {
    if p != [] {
      RootSumNonNegative(p[1..], q[1..], sqrt);
      assert sqrt(p[0] * q[0]) >= 0.0;
    }
  }

  /** Histograms with no bin occupied in both have coefficient 0. */
  lemma {:induction false} BhattacharyyaDisjoint(p: seq<real>, q: seq<real>, sqrt: real -> real)
    requires SqrtLaws(sqrt) && |p| == |q| && NonNegative(p) && NonNegative(q)
    requires forall i :: 0 <= i < |p| ==> !(p[i] > 0.0 && q[i] > 0.0)
    ensures Bhattacharyya(p, q, sqrt) == Ok(0.0)
  {
    if p != [] {
      BhattacharyyaDisjoint(p[1..], q[1..], sqrt);
      assert p[0] == 0.0 || q[0] == 0.0;
      assert p[0] * q[0] == 0.0;
      SqrtZero(sqrt);
    }
  }

  /** A non-negative histogram against itself has coefficient `sum(p)`: 1
      for a relative-frequency histogram. */
  lemma {:induction false} BhattacharyyaSelf(p: seq<real>, sqrt: real -> real)
    requires SqrtLaws(sqrt) && NonNegative(p)
    ensures Bhattacharyya(p, p, sqrt) == Ok(Sum(p))
    ensures Sum(p) == 1.0 ==> Bhattacharyya(p, p, sqrt) == Ok(1.0)
  {
    if p != [] {
      assert NonNegative(p[1..]) by {
        forall i | 0 <= i < |p| - 1 ensures p[1..][i] >= 0.0 {
          assert p[1..][i] == p[i + 1];
        }
      }
      BhattacharyyaSelf(p[1..], sqrt);
      assert sqrt(Square(p[0])) == p[0];
    }
  }

  /** `calculate_kl_divergence`: the length guard, then the sum of the
      element-wise divergence `kl_div`, which is a parameter. */
  function KlDivergence(p: seq<real>, q: seq<real>, klDiv: (real, real) -> real): (r: Result<real>)
    ensures r.Err? <==> |p| != |q|
    ensures r.Err? ==> r.error == ValueError
  {
    if |p| != |q| then Err(ValueError)
    else Ok(Sum(seq(|p|, i requires 0 <= i < |p| => klDiv(p[i], q[i]))))
  }

  /** The sum of element-wise terms that vanish on equal arguments: the
      divergence of a histogram from itself is 0. */
  lemma KlDivergenceSelf(p: seq<real>, klDiv: (real, real) -> real)
    requires forall x :: klDiv(x, x) == 0.0
    ensures KlDivergence(p, p, klDiv) == Ok(0.0)
  {
    var terms := seq(|p|, i requires 0 <= i < |p| => klDiv(p[i], p[i]));
    forall i | 0 <= i < |terms| ensures terms[i] == 0.0 {
      var x := p[i];
      assert klDiv(x, x) == 0.0;
    }
    SumZero(terms);
  }

  lemma {:induction false} SumZero(xs: seq<real>)
    requires forall i :: 0 <= i < |xs| ==> xs[i] == 0.0
    ensures Sum(xs) == 0.0
  {
    if xs != [] {
      SumZero(xs[1..]);
    }
  }
}
