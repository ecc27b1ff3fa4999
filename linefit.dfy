/** The least-squares line of best fit: matrix a has a row [1, x] per student, matrix b a row [y],
    and (intercept, gradient) solves (a^T a) beta = a^T b. */
module LineFit {
  import opened Outcomes
  import opened Sums
  import opened Statistics
  import opened Matrices

  /** y = intercept + gradient * x */
  datatype Line = Line(intercept: real, gradient: real)

  /** The prediction `intercept + gradient * mark`. */
  function Predict(line: Line, x: real): real
  {
    line.intercept + line.gradient * x
  }

  /** Matrix a: one row [1, x] per value, in order. */
  function DesignMatrix(xs: seq<real>): (a: Matrix)
    ensures IsMatrix(a, |xs|, 2)
    ensures forall i :: 0 <= i < |xs| ==> a[i] == [1.0, xs[i]]
  {
    seq(|xs|, i requires 0 <= i < |xs| => [1.0, xs[i]])
  }

  /** Matrix b: one row [y] per value, in order. */
  function TargetVector(ys: seq<real>): (b: Matrix)
    ensures IsMatrix(b, |ys|, 1)
    ensures forall i :: 0 <= i < |ys| ==> b[i] == [ys[i]]
  {
    seq(|ys|, i requires 0 <= i < |ys| => [ys[i]])
  }

  /** lhs = matmul(a.transpose(), a) */
  function NormalLhs(xs: seq<real>): (m: Matrix)
    ensures IsMatrix(m, 2, 2)
  {
    var a := DesignMatrix(xs);
    MatMul(Transpose(a, |xs|, 2), a, 2, |xs|, 2)
  }

  /** rhs = matmul(a.transpose(), b) */
  function NormalRhs(xs: seq<real>, ys: seq<real>): (v: Matrix)
    requires |xs| == |ys|
    ensures IsMatrix(v, 2, 1)
  {
    MatMul(Transpose(DesignMatrix(xs), |xs|, 2), TargetVector(ys), 2, |xs|, 1)
  }

  /** The two columns of matrix a are all ones and the marks; the one column of b is the scores. */
  lemma DesignColumns(xs: seq<real>, ys: seq<real>)
    requires |xs| == |ys|
    ensures ColumnAt(DesignMatrix(xs), |xs|, 0) == Ones(|xs|)
    ensures ColumnAt(DesignMatrix(xs), |xs|, 1) == xs
    ensures ColumnAt(TargetVector(ys), |xs|, 0) == ys
  {
  }

  /** a^T a == [[n, sum x], [sum x, sum x^2]] */
  lemma NormalLhsShape(xs: seq<real>)
    ensures NormalLhs(xs) == [[|xs| as real, Sum(xs)], [Sum(xs), SumSquares(xs)]]
  {
    NormalLhsEntries(xs);
    TwoByTwo(NormalLhs(xs));
  }

  lemma NormalLhsEntries(xs: seq<real>)
    ensures NormalLhs(xs)[0][0] == |xs| as real
    ensures NormalLhs(xs)[0][1] == Sum(xs) && NormalLhs(xs)[1][0] == Sum(xs)
    ensures NormalLhs(xs)[1][1] == SumSquares(xs)
  {
    var n, a := |xs|, DesignMatrix(xs);
    DesignColumns(xs, xs);
    GramSymmetric(a, n, 2, 0, 0);
    GramSymmetric(a, n, 2, 0, 1);
    GramSymmetric(a, n, 2, 1, 1);
    SumProductsWithOnes(Ones(n));
    SumOfConstant(Ones(n), 1.0);
    SumProductsWithOnes(xs);
    SumProductsSelf(xs);
  }

  /** a^T b == [[sum y], [sum x y]] */
  lemma NormalRhsShape(xs: seq<real>, ys: seq<real>)
    requires |xs| == |ys|
    ensures NormalRhs(xs, ys) == [[Sum(ys)], [SumProducts(xs, ys)]]
  {
    var n, a, b := |xs|, DesignMatrix(xs), TargetVector(ys);
    var t := Transpose(a, n, 2);
    var rhs := NormalRhs(xs, ys);
    DesignColumns(xs, ys);
    assert t[0] == Ones(n) && t[1] == xs;
    MatMulEntry(t, b, 2, n, 1, 0, 0);
    MatMulEntry(t, b, 2, n, 1, 1, 0);
    SumProductsWithOnes(ys);
    TwoByOne(rhs);
  }

  /** The determinant of a^T a is n * (sum of squared deviations of the marks). */
  lemma NormalDeterminant(xs: seq<real>)
    ensures Determinant(NormalLhs(xs)) == |xs| as real * SquaredDeviation(xs)
  {
    NormalLhsShape(xs);
    var n := |xs| as real;
    SymmetricDeterminant(NormalLhs(xs), n, Sum(xs), SumSquares(xs));
    if |xs| > 0 {
      DeviationSquaresExpand(xs, Mean(xs));
      MeanIdentity(SumSquares(xs), Sum(xs), n, Mean(xs));
      ScaledDeviation(Determinant(NormalLhs(xs)), n * SumSquares(xs) - Sum(xs) * Sum(xs),
                      n, SquaredDeviation(xs), Expansion(SumSquares(xs), Sum(xs), n, Mean(xs)));
    } else {
      assert Sum(xs) == 0.0 && SquaredDeviation(xs) == 0.0;
    }
  }

  lemma SymmetricDeterminant(m: Matrix, a: real, b: real, c: real)
    requires m == [[a, b], [b, c]]
    ensures IsMatrix(m, 2, 2) && Determinant(m) == a * c - b * b
  {
  }

  lemma ScaledDeviation(det: real, d: real, n: real, dev: real, e: real)
    requires det == d && dev == e && d == n * e
    ensures det == n * dev
  {
  }

  /** The fit fails with a singular matrix exactly when all marks are equal,
      which includes having fewer than two students. */
  lemma NormalSingularIffConstant(xs: seq<real>)
    ensures Determinant(NormalLhs(xs)) == 0.0 <==> Constant(xs)
  {
    NormalDeterminant(xs);
    SquaredDeviationZeroIffConstant(xs);
    ProductZero(|xs| as real, SquaredDeviation(xs));
  }

  /** With fewer than two students the normal system is singular and the solve fails. */
  lemma FitLineNeedsTwoStudents(xs: seq<real>, ys: seq<real>)
    requires |xs| == |ys| && |xs| < 2
    ensures FitLine(xs, ys) == Err(SingularMatrix)
  {
    assert Constant(xs);
  }

  /** `equation_best_fit`'s arithmetic: solve the normal equations and read off
      `result[0, 0]` as the intercept and `result[1, 0]` as the gradient. */
  function FitLine(xs: seq<real>, ys: seq<real>): (r: Result<Line>)
    requires |xs| == |ys|
    ensures r.Err? <==> Constant(xs)
    ensures r.Err? ==> r.error == SingularMatrix
    ensures r.Ok? ==> NormalEquations(xs, ys, r.value)
  {
    NormalSingularIffConstant(xs);
    var result :- Solve(NormalLhs(xs), NormalRhs(xs, ys));
    SolvedNormalEquations(xs, ys, result);
    Ok(Line(result[0][0], result[1][0]))
  }

  /** A solution of (a^T a) beta == a^T b, read as a line, satisfies the normal equations. */
  lemma SolvedNormalEquations(xs: seq<real>, ys: seq<real>, beta: Matrix)
    requires |xs| == |ys| && IsMatrix(beta, 2, 1)
    requires MatMul(NormalLhs(xs), beta, 2, 2, 1) == NormalRhs(xs, ys)
    ensures NormalEquations(xs, ys, Line(beta[0][0], beta[1][0]))
  {
    NormalLhsEntries(xs);
    NormalRhsShape(xs, ys);
    SymmetricSolution(NormalLhs(xs), beta, NormalRhs(xs, ys));
  }

  /** A solution of a symmetric 2x2 system, as equations between its entries. */
  lemma SymmetricSolution(m: Matrix, beta: Matrix, v: Matrix)
    requires IsMatrix(m, 2, 2) && IsMatrix(beta, 2, 1) && IsMatrix(v, 2, 1) && m[0][1] == m[1][0]
    requires MatMul(m, beta, 2, 2, 1) == v
    ensures SolvesNormalSystem(m[0][0], m[0][1], m[1][1], v[0][0], v[1][0], beta[0][0], beta[1][0])
  {
    ProductOfTwo(m, beta);
    SolvesFromRows(m[0][0], m[0][1], m[1][0], m[1][1], v[0][0], v[1][0], beta[0][0], beta[1][0]);
  }

  lemma SolvesFromRows(n: real, s: real, s': real, t: real, u: real, v: real, p: real, q: real)
    requires u == n * p + s * q && v == s' * p + t * q && s == s'
    ensures SolvesNormalSystem(n, s, t, u, v, p, q)
  {
  }

  /** The normal equations of least squares for the line, written out:
      n b0 + (sum x) b1 == sum y and (sum x) b0 + (sum x^2) b1 == sum x y. */
  predicate NormalEquations(xs: seq<real>, ys: seq<real>, line: Line)
    requires |xs| == |ys|
  {
    SolvesNormalSystem(|xs| as real, Sum(xs), SumSquares(xs), Sum(ys), SumProducts(xs, ys), line.intercept, line.gradient)
  }

  /** [[n, s], [s, t]] [[p], [q]] == [[u], [v]], entry by entry. */
  predicate SolvesNormalSystem(n: real, s: real, t: real, u: real, v: real, p: real, q: real)
  {
    n * p + s * q == u && s * p + t * q == v
  }

  /** When every score lies exactly on one line and the marks are not all equal,
      the fit returns that line. */
  lemma FitLineRecoversExactLine(xs: seq<real>, ys: seq<real>, line: Line)
    requires ys == Predictions(xs, line)
    requires !Constant(xs)
    ensures FitLine(xs, ys) == Ok(line)
  {
    NormalSingularIffConstant(xs);
    ExactLineSolvesNormalEquations(xs, line);
    NormalSystemFromEquations(xs, ys, line);
    SolveUnique(NormalLhs(xs), NormalRhs(xs, ys), [[line.intercept], [line.gradient]]);
  }

  /** Exactly linear data satisfies the normal equations for its own line. */
  lemma ExactLineSolvesNormalEquations(xs: seq<real>, line: Line)
    ensures NormalEquations(xs, Predictions(xs, line), line)
  {
    var ys := Predictions(xs, line);
    PredictionSum(xs, line);
    PredictionCrossSum(xs, line);
    SolvesFromLine(|xs| as real, Sum(xs), SumSquares(xs), Sum(ys), SumProducts(xs, ys), line.intercept, line.gradient);
  }

  /** A line satisfying the normal equations solves (a^T a) beta == a^T b. */
  lemma NormalSystemFromEquations(xs: seq<real>, ys: seq<real>, line: Line)
    requires |xs| == |ys| && NormalEquations(xs, ys, line)
    ensures MatMul(NormalLhs(xs), [[line.intercept], [line.gradient]], 2, 2, 1) == NormalRhs(xs, ys)
  {
    NormalLhsShape(xs);
    NormalRhsShape(xs, ys);
    SymmetricSystem(|xs| as real, Sum(xs), SumSquares(xs), Sum(ys), SumProducts(xs, ys), line.intercept, line.gradient);
  }

  lemma SolvesFromLine(n: real, s: real, t: real, u: real, v: real, p: real, q: real)
    requires u == Combination(p, n, q, s) && v == Combination(p, s, q, t)
    ensures SolvesNormalSystem(n, s, t, u, v, p, q)
  {
  }

  /** [[p], [q]] solves [[n, s], [s, t]] beta == [[u], [v]]. */
  lemma SymmetricSystem(n: real, s: real, t: real, u: real, v: real, p: real, q: real)
    requires SolvesNormalSystem(n, s, t, u, v, p, q)
    ensures MatMul([[n, s], [s, t]], [[p], [q]], 2, 2, 1) == [[u], [v]]
  {
    ProductOfScalars(n, s, s, t, p, q);
  }

  /** On exactly linear data the fitted line predicts each recorded score from its mark. */
  lemma PredictReproducesRecordedScore(xs: seq<real>, ys: seq<real>, line: Line, k: nat)
    requires ys == Predictions(xs, line) && k < |xs|
    requires !Constant(xs)
    ensures FitLine(xs, ys).Ok? && Predict(FitLine(xs, ys).value, xs[k]) == ys[k]
  {
    FitLineRecoversExactLine(xs, ys, line);
  }

  /** The residuals y_i - (intercept + gradient x_i): the entries of b - a beta. */
  function Residuals(xs: seq<real>, ys: seq<real>, line: Line): (e: seq<real>)
    requires |xs| == |ys|
    ensures |e| == |xs| && forall i :: 0 <= i < |xs| ==> e[i] == ys[i] - Predict(line, xs[i])
  {
    seq(|xs|, i requires 0 <= i < |xs| => ys[i] - Predict(line, xs[i]))
  }

  /** ||a beta - b||^2, the quantity the fit minimises. */
  function SquaredError(xs: seq<real>, ys: seq<real>, line: Line): real
    requires |xs| == |ys|
  {
    SumSquares(Residuals(xs, ys, line))
  }

  /** The fitted line is a least-squares line: no line has a smaller squared error. */
  lemma FitLineMinimisesSquaredError(xs: seq<real>, ys: seq<real>, other: Line)
    requires |xs| == |ys| && FitLine(xs, ys).Ok?
    ensures SquaredError(xs, ys, FitLine(xs, ys).value) <= SquaredError(xs, ys, other)
  {
    NormalEquationsMinimise(xs, ys, FitLine(xs, ys).value, other);
  }

  /** Any line satisfying the normal equations has the least squared error. */
  lemma NormalEquationsMinimise(xs: seq<real>, ys: seq<real>, best: Line, other: Line)
    requires |xs| == |ys| && NormalEquations(xs, ys, best)
    ensures SquaredError(xs, ys, best) <= SquaredError(xs, ys, other)
  {
    var e, f := Residuals(xs, ys, best), Residuals(xs, ys, other);
    var dp, dq := best.intercept - other.intercept, best.gradient - other.gradient;
    var d := Predictions(xs, Line(dp, dq));
    ResidualDecomposition(xs, ys, best, other);
    PredictionProducts(xs, Line(dp, dq), e);
    ResidualsBalance(xs, ys, best);
    ZeroCombination(dp, dq, Sum(e), SumProducts(xs, e));
    SumSquaresNonNegative(d);
    Cancel(SumSquares(f), SumSquares(e), SumProducts(d, e), SumSquares(d));
  }

  /** The residuals of `other` are those of `best` plus the gap between the two lines. */
  lemma ResidualDecomposition(xs: seq<real>, ys: seq<real>, best: Line, other: Line)
    requires |xs| == |ys|
    ensures var d := Predictions(xs, Line(best.intercept - other.intercept, best.gradient - other.gradient));
            var e := Residuals(xs, ys, best);
            SquaredError(xs, ys, other) == SquaredError(xs, ys, best) + 2.0 * SumProducts(d, e) + SumSquares(d)
  {
    var e, f := Residuals(xs, ys, best), Residuals(xs, ys, other);
    var d := Predictions(xs, Line(best.intercept - other.intercept, best.gradient - other.gradient));
    forall i | 0 <= i < |xs|
      ensures f[i] == e[i] + d[i]
    {
      ResidualShift(xs[i], ys[i], best, other);
    }
    SquaresOfSum(e, d, f);
  }

  /** The predictions of a line at each mark. */
  function Predictions(xs: seq<real>, line: Line): (z: seq<real>)
    ensures |z| == |xs| && forall i :: 0 <= i < |xs| ==> z[i] == line.intercept + line.gradient * xs[i]
  {
    seq(|xs|, i requires 0 <= i < |xs| => Predict(line, xs[i]))
  }

  /** The residual of another line is that of `best` plus the gap between the two lines. */
  lemma ResidualShift(x: real, y: real, best: Line, other: Line)
    ensures y - Predict(other, x)
         == (y - Predict(best, x)) + ((best.intercept - other.intercept) + (best.gradient - other.gradient) * x)
  {
  }

  /** Under the normal equations the residuals sum to 0 and are orthogonal to the marks. */
  lemma ResidualsBalance(xs: seq<real>, ys: seq<real>, line: Line)
    requires |xs| == |ys| && NormalEquations(xs, ys, line)
    ensures Sum(Residuals(xs, ys, line)) == 0.0
    ensures SumProducts(xs, Residuals(xs, ys, line)) == 0.0
  {
    ResidualSums(xs, ys, line);
    PredictionSum(xs, line);
    PredictionCrossSum(xs, line);
    Balance(Sum(Residuals(xs, ys, line)), SumProducts(xs, Residuals(xs, ys, line)),
            Sum(Predictions(xs, line)), SumProducts(xs, Predictions(xs, line)),
            |xs| as real, Sum(xs), SumSquares(xs), Sum(ys), SumProducts(xs, ys), line.intercept, line.gradient);
  }

  /** Residuals are scores minus predictions, so their sums are differences of sums. */
  lemma ResidualSums(xs: seq<real>, ys: seq<real>, line: Line)
    requires |xs| == |ys|
    ensures Sum(Residuals(xs, ys, line)) == Sum(ys) - Sum(Predictions(xs, line))
    ensures SumProducts(xs, Residuals(xs, ys, line)) == SumProducts(xs, ys) - SumProducts(xs, Predictions(xs, line))
  {
    SumOfDifference(xs, ys, Predictions(xs, line), Residuals(xs, ys, line));
  }

  /** Products with a line's predictions, term by term: (b0 + b1 x_i) e_i == b0 e_i + b1 (x_i e_i). */
  lemma PredictionsPointwise(xs: seq<real>, line: Line, es: seq<real>)
    requires |xs| == |es|
    ensures forall i :: 0 <= i < |xs| ==>
              Products(Predictions(xs, line), es)[i] == Combination(line.intercept, es[i], line.gradient, Products(xs, es)[i])
  {
  }

  /** Predictions against any list e: sum (b0 + b1 x_i) e_i == b0 sum e + b1 sum x e. */
  lemma PredictionProducts(xs: seq<real>, line: Line, es: seq<real>)
    requires |xs| == |es|
    ensures SumProducts(Predictions(xs, line), es) == Combination(line.intercept, Sum(es), line.gradient, SumProducts(xs, es))
  {
    PredictionsPointwise(xs, line, es);
    SumLinear(es, Products(xs, es), Products(Predictions(xs, line), es), line.intercept, line.gradient);
    SumProductsIsSum(Predictions(xs, line), es);
    SumProductsIsSum(xs, es);
  }

  /** The predictions sum to n b0 + b1 sum x. */
  lemma PredictionSum(xs: seq<real>, line: Line)
    ensures Sum(Predictions(xs, line)) == Combination(line.intercept, |xs| as real, line.gradient, Sum(xs))
  {
    PredictionProducts(xs, line, Ones(|xs|));
    SumProductsWithOnes(Predictions(xs, line));
    SumProductsWithOnes(xs);
    SumOfConstant(Ones(|xs|), 1.0);
  }

  /** The marks times the predictions sum to b0 sum x + b1 sum x^2. */
  lemma PredictionCrossSum(xs: seq<real>, line: Line)
    ensures SumProducts(xs, Predictions(xs, line)) == Combination(line.intercept, Sum(xs), line.gradient, SumSquares(xs))
  {
    PredictionProducts(xs, line, xs);
    SumProductsSymmetric(xs, Predictions(xs, line));
    SumProductsSelf(xs);
  }

  lemma Balance(se: real, sxe: real, sz: real, sxz: real, n: real, sx: real, sxx: real, sy: real, sxy: real, b0: real, b1: real)
    requires SolvesNormalSystem(n, sx, sxx, sy, sxy, b0, b1)
    requires se == sy - sz
    requires sxe == sxy - sxz
    requires sz == Combination(b0, n, b1, sx)
    requires sxz == Combination(b0, sx, b1, sxx)
    ensures se == 0.0 && sxe == 0.0
  {
  }

  lemma ZeroCombination(a: real, b: real, u: real, v: real)
    requires u == 0.0 && v == 0.0
    ensures Combination(a, u, b, v) == 0.0
  {
    ProductZero(a, u);
    ProductZero(b, v);
  }

  lemma Cancel(ssf: real, sse: real, sde: real, ssd: real)
    requires ssf == sse + 2.0 * sde + ssd && sde == 0.0 && 0.0 <= ssd
    ensures sse <= ssf
  {
  }

  /** ss - 2 m s + k m^2: the sum of squared deviations from m of k values with sum s and
      sum of squares ss. */
  function Expansion(ss: real, s: real, k: real, m: real): real
  {
    ss - 2.0 * m * s + k * m * m
  }

  /** (x_i - m)^2 summed, expanded around the sums. */
  lemma {:induction false} DeviationSquaresExpand(xs: seq<real>, m: real)
    ensures DeviationSquares(xs, m) == Expansion(SumSquares(xs), Sum(xs), |xs| as real, m)
  {
    if |xs| > 0 {
      var n := |xs| - 1;
      DeviationSquaresExpand(xs[..n], m);
      LastDeviation(xs, m, n);
      LastSum(xs, n);
      LastSquare(xs, n);
      ExpandStep(DeviationSquares(xs, m), SumSquares(xs), Sum(xs), |xs| as real,
                 DeviationSquares(xs[..n], m), SumSquares(xs[..n]), Sum(xs[..n]), |xs[..n]| as real, m, xs[n]);
    }
  }

  lemma ExpandStep(td: real, tss: real, ts: real, k1: real, d: real, ss: real, s: real, k: real, m: real, x: real)
    requires td == d + (x - m) * (x - m) && tss == ss + x * x && ts == s + x && k1 == k + 1.0
    requires d == Expansion(ss, s, k, m)
    ensures td == Expansion(tss, ts, k1, m)
  {
    assert (x - m) * (x - m) == x * x - 2.0 * m * x + m * m;
    assert 2.0 * m * ts == 2.0 * m * s + 2.0 * m * x;
    assert k1 * m * m == k * m * m + m * m;
  }

  /** With m the mean s / n, n times the expansion is n ss - s^2. */
  lemma MeanIdentity(ss: real, s: real, n: real, m: real)
    requires n != 0.0 && m == s / n
    ensures n * ss - s * s == n * Expansion(ss, s, n, m)
  {
    var nm := n * m;
    assert nm == s;
    assert n * (ss - 2.0 * m * s + n * m * m) == n * ss - 2.0 * nm * s + nm * nm;
  }
}
