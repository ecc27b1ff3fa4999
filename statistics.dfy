/** The statistics of spreadsheet2.py: mean, the unnormalised covariance and "std" sums, and correlation.
    Both `sample_covariance` and `sample_std` sum deviations without dividing by n or n - 1;
    this is not the textbook sample covariance, and it is kept that way. */
module Statistics {
  import opened Outcomes
  import opened Sums

  /** All values are equal (vacuously true of the empty and one-element lists). */
  predicate Constant(xs: seq<real>)
  {
    forall i, j :: 0 <= i < |xs| && 0 <= j < |xs| ==> xs[i] == xs[j]
  }

  /** `statistics.mean`; it raises on an empty list, so it is only defined on non-empty ones. */
  function Mean(xs: seq<real>): real
    requires |xs| > 0
  {
    Sum(xs) / |xs| as real
  }

  /** (xs[0] - mx)(ys[0] - my) + ... for fixed centres mx, my. */
  function DeviationProducts(xs: seq<real>, ys: seq<real>, mx: real, my: real): real
    requires |xs| == |ys|
  {
    if |xs| == 0 then 0.0
    else DeviationProducts(xs[..|xs| - 1], ys[..|xs| - 1], mx, my) + (xs[|xs| - 1] - mx) * (ys[|xs| - 1] - my)
  }

  /** (xs[0] - m)^2 + ... for a fixed centre m. */
  function DeviationSquares(xs: seq<real>, m: real): real
  {
    if |xs| == 0 then 0.0
    else DeviationSquares(xs[..|xs| - 1], m) + (xs[|xs| - 1] - m) * (xs[|xs| - 1] - m)
  }

  /** The value `sample_covariance` returns: the sum of (x_i - mean x)(y_i - mean y).
      On empty lists the loop never runs and the mean is never taken, so it is 0. */
  function Covariance(xs: seq<real>, ys: seq<real>): real
    requires |xs| == |ys|
  {
    if |xs| == 0 then 0.0 else DeviationProducts(xs, ys, Mean(xs), Mean(ys))
  }

  /** The sum of squares under the root in `sample_std`; 0 on the empty list. */
  function SquaredDeviation(xs: seq<real>): real
  {
    if |xs| == 0 then 0.0 else DeviationSquares(xs, Mean(xs))
  }

  /** `root` behaves as `math.sqrt` on the non-negative reals: the non-negative square root. */
  ghost predicate IsSqrt(root: real -> real)
  {
    forall v :: 0.0 <= v ==> 0.0 <= root(v) && root(v) * root(v) == v
  }

  /** The value `sample_std` returns, with `root` standing for `math.sqrt`. */
  function Std(xs: seq<real>, root: real -> real): real
  {
    root(SquaredDeviation(xs))
  }

  /** `sample_covariance`: asserts equal lengths, then accumulates the deviation products,
      recomputing both means on every iteration, as the Python loop does. */
  method SampleCovariance(xs: seq<real>, ys: seq<real>) returns (r: Result<real>)
    ensures r == Err(LengthMismatch) <==> |xs| != |ys|
    ensures |xs| == |ys| ==> r == Ok(Covariance(xs, ys))
  {
    if |xs| != |ys| {
      return Err(LengthMismatch);
    }
    var covariance := 0.0;
    for i := 0 to |xs|
      invariant covariance == if |xs| == 0 then 0.0 else DeviationProducts(xs[..i], ys[..i], Mean(xs), Mean(ys))
    {
      var expression := (xs[i] - Mean(xs)) * (ys[i] - Mean(ys));
      ProductsPrefix(xs, ys, Mean(xs), Mean(ys), i);
      covariance := covariance + expression;
    }
    assert xs[..|xs|] == xs && ys[..|xs|] == ys;
    return Ok(covariance);
  }

  /** `sample_std`: accumulates the squared deviations and takes the root of the total. */
  method SampleStd(xs: seq<real>, root: real -> real) returns (s: real)
    requires IsSqrt(root)
    ensures s == Std(xs, root)
    ensures 0.0 <= s && s * s == SquaredDeviation(xs)
  {
    var std := 0.0;
    for i := 0 to |xs|
      invariant std == if |xs| == 0 then 0.0 else DeviationSquares(xs[..i], Mean(xs))
    {
      var expression := (xs[i] - Mean(xs)) * (xs[i] - Mean(xs));
      SquaresPrefix(xs, Mean(xs), i);
      std := std + expression;
    }
    assert xs[..|xs|] == xs;
    SquaredDeviationNonNegative(xs);
    return root(std);
  }

  /** `sample_correlation`: covariance over the product of the two stds. The covariance's
      length assertion comes first; a zero product raises ZeroDivisionError. */
  function SampleCorrelation(xs: seq<real>, ys: seq<real>, root: real -> real): Result<real>
  {
    if |xs| != |ys| then Err(LengthMismatch)
    else
      var cov := Covariance(xs, ys);
      var sigmaX := Std(xs, root);
      var sigmaY := Std(ys, root);
      if sigmaX * sigmaY == 0.0 then Err(DivisionByZero) else Ok(cov / (sigmaX * sigmaY))
  }

  // ---------------------------------------------------------------------------
  // Prefix steps used by the loops

  lemma ProductsPrefix(xs: seq<real>, ys: seq<real>, mx: real, my: real, i: nat)
    requires |xs| == |ys| && i < |xs|
    ensures DeviationProducts(xs[..i + 1], ys[..i + 1], mx, my)
         == DeviationProducts(xs[..i], ys[..i], mx, my) + (xs[i] - mx) * (ys[i] - my)
  {
    assert xs[..i + 1][..i] == xs[..i] && ys[..i + 1][..i] == ys[..i];
  }

  /** The definition of DeviationSquares, split before the last element, at index n. */
  lemma LastDeviation(xs: seq<real>, m: real, n: nat)
    requires |xs| == n + 1
    ensures DeviationSquares(xs, m) == DeviationSquares(xs[..n], m) + (xs[n] - m) * (xs[n] - m)
  {
  }

  lemma SquaresPrefix(xs: seq<real>, m: real, i: nat)
    requires i < |xs|
    ensures DeviationSquares(xs[..i + 1], m) == DeviationSquares(xs[..i], m) + (xs[i] - m) * (xs[i] - m)
  {
    assert xs[..i + 1][..i] == xs[..i];
  }

  // ---------------------------------------------------------------------------
  // Covariance and the sum of squares

  lemma {:induction false} DeviationProductsSymmetric(xs: seq<real>, ys: seq<real>, mx: real, my: real)
    requires |xs| == |ys|
    ensures DeviationProducts(xs, ys, mx, my) == DeviationProducts(ys, xs, my, mx)
  {
    if |xs| > 0 {
      DeviationProductsSymmetric(xs[..|xs| - 1], ys[..|xs| - 1], mx, my);
    }
  }

  /** The covariance does not depend on the order of its arguments. */
  lemma CovarianceSymmetric(xs: seq<real>, ys: seq<real>)
    requires |xs| == |ys|
    ensures Covariance(xs, ys) == Covariance(ys, xs)
  {
    if |xs| > 0 {
      DeviationProductsSymmetric(xs, ys, Mean(xs), Mean(ys));
    }
  }

  lemma {:induction false} SquaresAreSelfProducts(xs: seq<real>, m: real)
    ensures DeviationSquares(xs, m) == DeviationProducts(xs, xs, m, m)
  {
    if |xs| > 0 {
      SquaresAreSelfProducts(xs[..|xs| - 1], m);
    }
  }

  /** The quantity under the root in `sample_std` is the covariance of the list with itself. */
  lemma SquaredDeviationIsSelfCovariance(xs: seq<real>)
    ensures SquaredDeviation(xs) == Covariance(xs, xs)
  {
    if |xs| > 0 {
      SquaresAreSelfProducts(xs, Mean(xs));
    }
  }

  lemma {:induction false} DeviationSquaresNonNegative(xs: seq<real>, m: real)
    ensures 0.0 <= DeviationSquares(xs, m)
  {
    if |xs| > 0 {
      DeviationSquaresNonNegative(xs[..|xs| - 1], m);
      SquareNonNegative(xs[|xs| - 1] - m);
    }
  }

  /** The quantity under the root is never negative, so `math.sqrt` never sees a negative number. */
  lemma SquaredDeviationNonNegative(xs: seq<real>)
    ensures 0.0 <= SquaredDeviation(xs)
  {
    if |xs| > 0 {
      DeviationSquaresNonNegative(xs, Mean(xs));
    }
  }

  /** A sum of squared deviations from m is zero exactly when every value is m. */
  lemma {:induction false} DeviationSquaresZero(xs: seq<real>, m: real)
    ensures DeviationSquares(xs, m) == 0.0 <==> forall i :: 0 <= i < |xs| ==> xs[i] == m
  {
    if |xs| > 0 {
      var n := |xs| - 1;
      DeviationSquaresZero(xs[..n], m);
      DeviationSquaresNonNegative(xs[..n], m);
      SquareNonNegative(xs[n] - m);
      SquareZero(xs[n] - m);
      if DeviationSquares(xs, m) == 0.0 {
        forall i | 0 <= i < |xs| ensures xs[i] == m {
          if i < n {
            assert xs[..n][i] == xs[i];
          }
        }
      }
      if forall i :: 0 <= i < |xs| ==> xs[i] == m {
        assert forall i :: 0 <= i < n ==> xs[..n][i] == m;
      }
    }
  }

  lemma MeanOfConstant(xs: seq<real>)
    requires |xs| > 0 && Constant(xs)
    ensures Mean(xs) == xs[0]
  {
    SumOfConstant(xs, xs[0]);
    QuotientOfMultiple(|xs| as real, xs[0]);
  }

  /** The sum of squares is 0 exactly when all values are equal. */
  lemma SquaredDeviationZeroIffConstant(xs: seq<real>)
    ensures SquaredDeviation(xs) == 0.0 <==> Constant(xs)
  {
    if |xs| > 0 {
      DeviationSquaresZero(xs, Mean(xs));
      if Constant(xs) {
        MeanOfConstant(xs);
      }
    }
  }

  // ---------------------------------------------------------------------------
  // The standard deviation

  lemma RootFacts(root: real -> real, v: real)
    requires IsSqrt(root) && 0.0 <= v
    ensures 0.0 <= root(v) && root(v) * root(v) == v
    ensures root(v) == 0.0 <==> v == 0.0
  {
    SquareZero(root(v));
  }

  /** The std is the non-negative root of the sum of squares, and it is 0 exactly when the
      list is constant (in particular `sample_std([])` is `sqrt(0) = 0`). */
  lemma StdFacts(xs: seq<real>, root: real -> real)
    requires IsSqrt(root)
    ensures 0.0 <= Std(xs, root)
    ensures Std(xs, root) * Std(xs, root) == SquaredDeviation(xs)
    ensures Std(xs, root) == 0.0 <==> Constant(xs)
  {
    SquaredDeviationNonNegative(xs);
    SquaredDeviationZeroIffConstant(xs);
    RootFacts(root, SquaredDeviation(xs));
  }

  // ---------------------------------------------------------------------------
  // Correlation

  /** Correlation fails with the length assertion on lists of different lengths, and
      with a division by zero exactly when one of the lists is constant. */
  lemma CorrelationFailsIffConstant(xs: seq<real>, ys: seq<real>, root: real -> real)
    requires IsSqrt(root)
    ensures |xs| != |ys| ==> SampleCorrelation(xs, ys, root) == Err(LengthMismatch)
    ensures |xs| == |ys| ==>
      (SampleCorrelation(xs, ys, root) == Err(DivisionByZero) <==> Constant(xs) || Constant(ys))
    ensures |xs| == |ys| ==> (SampleCorrelation(xs, ys, root).Ok? <==> !Constant(xs) && !Constant(ys))
  {
    StdFacts(xs, root);
    StdFacts(ys, root);
    ProductZero(Std(xs, root), Std(ys, root));
  }

  /** The correlation does not depend on the order of its arguments. */
  lemma CorrelationSymmetric(xs: seq<real>, ys: seq<real>, root: real -> real)
    ensures SampleCorrelation(xs, ys, root) == SampleCorrelation(ys, xs, root)
  {
    if |xs| == |ys| {
      CovarianceSymmetric(xs, ys);
    }
  }

  /** A non-constant list has correlation exactly 1 with itself. */
  lemma SelfCorrelationIsOne(xs: seq<real>, root: real -> real)
    requires IsSqrt(root)
    requires !Constant(xs)
    ensures SampleCorrelation(xs, xs, root) == Ok(1.0)
  {
    StdFacts(xs, root);
    SquaredDeviationIsSelfCovariance(xs);
    var s := Std(xs, root);
    SquareZero(s);
    QuotientOfSelf(s * s);
    assert Covariance(xs, xs) == s * s;
    assert SampleCorrelation(xs, xs, root) == Ok(Covariance(xs, xs) / (s * s));
  }

  /** In terms of the deviation sums: r^2 * Sxx * Syy == Sxy^2. */
  lemma CorrelationSquared(xs: seq<real>, ys: seq<real>, root: real -> real)
    requires IsSqrt(root)
    requires SampleCorrelation(xs, ys, root).Ok?
    ensures var r := SampleCorrelation(xs, ys, root).value;
      r * r * (SquaredDeviation(xs) * SquaredDeviation(ys)) == Covariance(xs, ys) * Covariance(xs, ys)
  {
    StdFacts(xs, root);
    StdFacts(ys, root);
    var sx, sy := Std(xs, root), Std(ys, root);
    SquaredQuotient(Covariance(xs, ys), sx * sy);
    assert (sx * sy) * (sx * sy) == (sx * sx) * (sy * sy);
  }

  // ---------------------------------------------------------------------------
  // Real arithmetic facts, kept apart so that each proof sees only the terms it needs

  lemma SquareNonNegative(d: real)
    ensures 0.0 <= d * d
  {
  }

  lemma SquareZero(d: real)
    ensures d * d == 0.0 <==> d == 0.0
  {
    ProductZero(d, d);
  }

  lemma ProductZero(a: real, b: real)
    ensures a * b == 0.0 <==> a == 0.0 || b == 0.0
  {
  }

  lemma QuotientOfMultiple(n: real, c: real)
    requires n != 0.0
    ensures (n * c) / n == c
  {
  }

  lemma QuotientOfSelf(a: real)
    requires a != 0.0
    ensures a / a == 1.0
  {
  }

  lemma SquaredQuotient(c: real, d: real)
    requires d != 0.0
    ensures (c / d) * (c / d) * (d * d) == c * c
  {
    var q := c / d;
    assert q * d == c;
    assert q * q * (d * d) == (q * d) * (q * d);
  }
}
