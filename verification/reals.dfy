/** Python's `sum`, `min`, `max` and the arithmetic mean over a list of
    numbers, with the bounds every caller relies on. */
module Reals {

  function Min2(a: real, b: real): real {
    if b < a then b else a
  }

  function Max2(a: real, b: real): real {
    if b > a then b else a
  }

  /** `sum(xs)`, accumulated left to right from 0. */
  function Sum(xs: seq<real>): real {
    if xs == [] then 0.0 else Sum(xs[..|xs| - 1]) + xs[|xs| - 1]
  }

  /** `min(xs)`: a member of `xs` no larger than any other. */
  function Min(xs: seq<real>): (m: real)
    requires xs != []
    ensures m in xs
    ensures forall i :: 0 <= i < |xs| ==> m <= xs[i]
  {
    if |xs| == 1 then xs[0]
    else
      var m := Min(xs[..|xs| - 1]);
      assert forall i :: 0 <= i < |xs| - 1 ==> xs[..|xs| - 1][i] == xs[i];
      Min2(m, xs[|xs| - 1])
  }

  /** `max(xs)`: a member of `xs` no smaller than any other. */
  function Max(xs: seq<real>): (m: real)
    requires xs != []
    ensures m in xs
    ensures forall i :: 0 <= i < |xs| ==> xs[i] <= m
  {
    if |xs| == 1 then xs[0]
    else
      var m := Max(xs[..|xs| - 1]);
      assert forall i :: 0 <= i < |xs| - 1 ==> xs[..|xs| - 1][i] == xs[i];
      Max2(m, xs[|xs| - 1])
  }

  /** `sum(xs) / len(xs)` (`np.mean` computes the same number). */
  function Mean(xs: seq<real>): real
    requires xs != []
  {
    Sum(xs) / |xs| as real
  }

  /** A sum of `n` numbers lies between `n` times any lower bound and `n`
      times any upper bound. */
  lemma {:induction false} SumBounds(xs: seq<real>, lo: real, hi: real)
    requires forall i :: 0 <= i < |xs| ==> lo <= xs[i] <= hi
    ensures |xs| as real * lo <= Sum(xs) <= |xs| as real * hi
  {
    if xs != [] {
      var init := xs[..|xs| - 1];
      assert forall i :: 0 <= i < |init| ==> init[i] == xs[i];
      SumBounds(init, lo, hi);
      var x := xs[|xs| - 1];
      assert Sum(xs) == Sum(init) + x;
      assert lo <= x <= hi;
      var m := |init| as real;
      var n := |xs| as real;
      assert n == m + 1.0;
      assert n * lo == m * lo + lo;
      assert n * hi == m * hi + hi;
    }
  }

  /** The mean lies between the minimum and the maximum. */
  lemma MeanBetween(xs: seq<real>)
    requires xs != []
    ensures Min(xs) <= Mean(xs) <= Max(xs)
  {
    SumBounds(xs, Min(xs), Max(xs));
    QuotientBounds(Sum(xs), |xs| as real, Min(xs), Max(xs));
  }

  lemma QuotientBounds(a: real, n: real, lo: real, hi: real)
    requires n > 0.0
    requires n * lo <= a <= n * hi
    ensures lo <= a / n <= hi
  {
    assert a / n * n == a;
  }

  /** Sums split over concatenation. */
  lemma {:induction false} SumAppend(xs: seq<real>, ys: seq<real>)
    ensures Sum(xs + ys) == Sum(xs) + Sum(ys)
  {
    if ys != [] {
      var zs := xs + ys;
      assert zs[..|zs| - 1] == xs + ys[..|ys| - 1];
      SumAppend(xs, ys[..|ys| - 1]);
    } else {
      assert xs + ys == xs;
    }
  }

  /** The minimum of two non-empty lists joined is the smaller minimum. */
  lemma MinAppend(xs: seq<real>, ys: seq<real>)
    requires xs != [] && ys != []
    ensures Min(xs + ys) == Min2(Min(xs), Min(ys))
  {
    var zs := xs + ys;
    var m := Min(zs);
    var i :| 0 <= i < |zs| && zs[i] == m;
    if i < |xs| {
      assert zs[i] == xs[i];
    } else {
      assert zs[i] == ys[i - |xs|];
    }
    var xi :| 0 <= xi < |xs| && xs[xi] == Min(xs);
    var yi :| 0 <= yi < |ys| && ys[yi] == Min(ys);
    assert zs[xi] == xs[xi] && zs[|xs| + yi] == ys[yi];
  }

  /** The maximum of two non-empty lists joined is the larger maximum. */
  lemma MaxAppend(xs: seq<real>, ys: seq<real>)
    requires xs != [] && ys != []
    ensures Max(xs + ys) == Max2(Max(xs), Max(ys))
  {
    var zs := xs + ys;
    var m := Max(zs);
    var i :| 0 <= i < |zs| && zs[i] == m;
    if i < |xs| {
      assert zs[i] == xs[i];
    } else {
      assert zs[i] == ys[i - |xs|];
    }
    var xi :| 0 <= xi < |xs| && xs[xi] == Max(xs);
    var yi :| 0 <= yi < |ys| && ys[yi] == Max(ys);
    assert zs[xi] == xs[xi] && zs[|xs| + yi] == ys[yi];
  }
}
