/** Sums, means and variances of sequences of decimals, the `reduce` folds the
    indicator engine and the metrics calculators are built from. */
module RealSeqs {

  /** Left fold `s.reduce((acc, x) => acc + x, 0)`. */
  function Sum(s: seq<real>): real
  {
    if |s| == 0 then 0.0 else Sum(s[..|s| - 1]) + s[|s| - 1]
  }

  /** Arithmetic mean of a non-empty sequence. */
  function Mean(s: seq<real>): real
    requires |s| > 0
  {
    Sum(s) / (|s| as real)
  }

  function Product(x: real, y: real): real
  {
    x * y
  }

  /** `Math.pow(x, 2)`. */
  function Square(x: real): real
  {
    Product(x, x)
  }

  /** Sum of squared deviations from `m`. */
  function SumSquaredDeviations(s: seq<real>, m: real): real
  {
    if |s| == 0 then 0.0
    else SumSquaredDeviations(s[..|s| - 1], m) + Square(s[|s| - 1] - m)
  }

  /** Population variance (no Bessel correction). */
  function Variance(s: seq<real>): real
    requires |s| > 0
  {
    SumSquaredDeviations(s, Mean(s)) / (|s| as real)
  }

  lemma SumAppend(s: seq<real>, x: real)
    ensures Sum(s + [x]) == Sum(s) + x
  {
    assert (s + [x])[..|s|] == s;
  }

  lemma {:induction false} SumConcat(a: seq<real>, b: seq<real>)
    ensures Sum(a + b) == Sum(a) + Sum(b)
    decreases |b|
  {
    if |b| == 0 {
      assert a + b == a;
    } else {
      var b' := b[..|b| - 1];
      assert a + b == (a + b') + [b[|b| - 1]];
      assert b == b' + [b[|b| - 1]];
      SumConcat(a, b');
      SumAppend(a + b', b[|b| - 1]);
      SumAppend(b', b[|b| - 1]);
    }
  }

  /** Every element in [lo, hi] bounds the sum by n*lo and n*hi. */
  lemma {:induction false} SumBounds(s: seq<real>, lo: real, hi: real)
    requires forall i :: 0 <= i < |s| ==> lo <= s[i] <= hi
    ensures (|s| as real) * lo <= Sum(s) <= (|s| as real) * hi
  {
    if |s| > 0 {
      var p := s[..|s| - 1];
      assert forall i :: 0 <= i < |p| ==> p[i] == s[i];
      SumBounds(p, lo, hi);
      assert (|s| as real) * lo == (|p| as real) * lo + lo;
      assert (|s| as real) * hi == (|p| as real) * hi + hi;
    }
  }

  /** A sum of non-negative terms is non-negative. */
  lemma {:induction false} SumNonNegative(s: seq<real>)
    requires forall i :: 0 <= i < |s| ==> 0.0 <= s[i]
    ensures 0.0 <= Sum(s)
  {
    if |s| > 0 {
      var p := s[..|s| - 1];
      assert forall i :: 0 <= i < |p| ==> p[i] == s[i];
      SumNonNegative(p);
    }
  }

  /** The mean lies between any lower and upper bound of the elements. */
  lemma MeanBounds(s: seq<real>, lo: real, hi: real)
    requires |s| > 0
    requires forall i :: 0 <= i < |s| ==> lo <= s[i] <= hi
    ensures lo <= Mean(s) <= hi
  {
    SumBounds(s, lo, hi);
    var n := |s| as real;
    assert Sum(s) / n >= lo by {
      assert Sum(s) >= n * lo;
    }
    assert Sum(s) / n <= hi by {
      assert Sum(s) <= n * hi;
    }
  }

  /** The mean of non-negative elements is non-negative. */
  lemma MeanNonNegative(s: seq<real>)
    requires |s| > 0
    requires forall i :: 0 <= i < |s| ==> 0.0 <= s[i]
    ensures 0.0 <= Mean(s)
  {
    SumNonNegative(s);
  }

  /** The mean of a constant sequence is that constant. */
  lemma MeanOfConstant(s: seq<real>, c: real)
    requires |s| > 0
    requires forall i :: 0 <= i < |s| ==> s[i] == c
    ensures Mean(s) == c
  {
    MeanBounds(s, c, c);
  }

  lemma {:induction false} SumSquaredDeviationsNonNegative(s: seq<real>, m: real)
    ensures 0.0 <= SumSquaredDeviations(s, m)
  {
    if |s| > 0 {
      SumSquaredDeviationsNonNegative(s[..|s| - 1], m);
      var d := s[|s| - 1] - m;
      if d != 0.0 {
        SquarePositive(d);
      }
    }
  }

  lemma ProductOfPositives(a: real, b: real)
    requires a > 0.0 && b > 0.0
    ensures Product(a, b) > 0.0
  {
  }

  lemma ProductOfNegatives(a: real, b: real)
    requires a < 0.0 && b < 0.0
    ensures Product(a, b) > 0.0
  {
    assert Product(a, b) == Product(-a, -b);
    ProductOfPositives(-a, -b);
  }

  /** A non-zero deviation contributes a positive square. */
  lemma SquarePositive(d: real)
    requires d != 0.0
    ensures Square(d) > 0.0
  {
    if d > 0.0 {
      ProductOfPositives(d, d);
    } else {
      ProductOfNegatives(d, d);
    }
  }

  /** The squared deviations vanish exactly when every element equals `m`. */
  lemma {:induction false} SumSquaredDeviationsZero(s: seq<real>, m: real)
    ensures SumSquaredDeviations(s, m) == 0.0 <==> forall i :: 0 <= i < |s| ==> s[i] == m
  {
    if |s| > 0 {
      var p := s[..|s| - 1];
      var d := s[|s| - 1] - m;
      assert forall i :: 0 <= i < |p| ==> p[i] == s[i];
      SumSquaredDeviationsZero(p, m);
      SumSquaredDeviationsNonNegative(p, m);
      if d != 0.0 {
        SquarePositive(d);
        assert SumSquaredDeviations(s, m) > 0.0;
      } else {
        assert SumSquaredDeviations(s, m) == SumSquaredDeviations(p, m);
      }
    }
  }

  lemma VarianceNonNegative(s: seq<real>)
    requires |s| > 0
    ensures 0.0 <= Variance(s)
  {
    SumSquaredDeviationsNonNegative(s, Mean(s));
  }

  /** The population variance is zero exactly when all elements are equal. */
  lemma VarianceZeroIffConstant(s: seq<real>)
    requires |s| > 0
    ensures Variance(s) == 0.0 <==> forall i :: 0 <= i < |s| ==> s[i] == s[0]
  {
    var m := Mean(s);
    SumSquaredDeviationsZero(s, m);
    SumSquaredDeviationsNonNegative(s, m);
    if forall i :: 0 <= i < |s| ==> s[i] == s[0] {
      MeanOfConstant(s, s[0]);
    }
  }
}
