/** The numpy operations the least-squares fit uses, on exact reals: `transpose`, `matmul`
    and `linalg.solve` for a 2x2 system. A matrix is a list of rows. */
module Matrices {
  import opened Outcomes
  import opened Sums

  type Matrix = seq<seq<real>>

  /** `a` has `rows` rows, each of `cols` entries. */
  predicate IsMatrix(a: Matrix, rows: nat, cols: nat)
  {
    |a| == rows && forall i :: 0 <= i < rows ==> |a[i]| == cols
  }

  /** Column j of a matrix with `rows` rows. */
  function ColumnAt(a: Matrix, rows: nat, j: nat): (c: seq<real>)
    requires |a| == rows && forall i :: 0 <= i < rows ==> j < |a[i]|
    ensures |c| == rows && forall i :: 0 <= i < rows ==> c[i] == a[i][j]
  {
    seq(rows, i requires 0 <= i < rows => a[i][j])
  }

  /** `a.transpose()`: entry (i, j) of the result is entry (j, i) of `a`. */
  function Transpose(a: Matrix, rows: nat, cols: nat): (t: Matrix)
    requires IsMatrix(a, rows, cols)
    ensures IsMatrix(t, cols, rows)
    ensures forall i, j :: 0 <= i < cols && 0 <= j < rows ==> t[i][j] == a[j][i]
  {
    seq(cols, j requires 0 <= j < cols => ColumnAt(a, rows, j))
  }

  /** `matmul(a, b)` for an n x m matrix a and an m x p matrix b:
      entry (i, j) is the dot product of row i of a with column j of b. */
  function MatMul(a: Matrix, b: Matrix, n: nat, m: nat, p: nat): (c: Matrix)
    requires IsMatrix(a, n, m) && IsMatrix(b, m, p)
    ensures IsMatrix(c, n, p)
  {
    seq(n, i requires 0 <= i < n => seq(p, j requires 0 <= j < p => SumProducts(a[i], ColumnAt(b, m, j))))
  }

  /** Entry (i, j) of a product. */
  lemma MatMulEntry(a: Matrix, b: Matrix, n: nat, m: nat, p: nat, i: nat, j: nat)
    requires IsMatrix(a, n, m) && IsMatrix(b, m, p) && i < n && j < p
    ensures MatMul(a, b, n, m, p)[i][j] == SumProducts(a[i], ColumnAt(b, m, j))
  {
  }

  /** The determinant of a 2x2 matrix. */
  function Determinant(m: Matrix): real
    requires IsMatrix(m, 2, 2)
  {
    m[0][0] * m[1][1] - m[0][1] * m[1][0]
  }

  /** `linalg.solve(m, v)` for a 2x2 matrix m and a 2x1 right-hand side v, by Cramer's rule.
      numpy raises `LinAlgError` ("Singular matrix") exactly when elimination meets a zero pivot,
      which for a 2x2 matrix over exact reals is exactly when the determinant is 0.
      Otherwise the result is the 2x1 matrix that m maps to v. */
  function Solve(m: Matrix, v: Matrix): (r: Result<Matrix>)
    requires IsMatrix(m, 2, 2) && IsMatrix(v, 2, 1)
    ensures r.Err? <==> Determinant(m) == 0.0
    ensures r.Err? ==> r.error == SingularMatrix
    ensures r.Ok? ==> IsMatrix(r.value, 2, 1) && MatMul(m, r.value, 2, 2, 1) == v
  {
    var det := Determinant(m);
    if det == 0.0 then Err(SingularMatrix)
    else
      var x := (v[0][0] * m[1][1] - m[0][1] * v[1][0]) / det;
      var y := (m[0][0] * v[1][0] - m[1][0] * v[0][0]) / det;
      var beta := [[x], [y]];
      CramerSolves(m[0][0], m[0][1], m[1][0], m[1][1], v[0][0], v[1][0]);
      ProductOfTwo(m, beta);
      assert MatMul(m, beta, 2, 2, 1) == v by {
        var r := MatMul(m, beta, 2, 2, 1);
        assert beta[0][0] == x && beta[1][0] == y;
        assert m[0][0] * x + m[0][1] * y == v[0][0];
        assert m[1][0] * x + m[1][1] * y == v[1][0];
        assert r[0][0] == v[0][0] && r[1][0] == v[1][0];
        assert |r[0]| == 1 && |r[1]| == 1;
        assert r[0] == [v[0][0]] && r[1] == [v[1][0]];
        assert v[0] == [v[0][0]] && v[1] == [v[1][0]];
      }
      Ok(beta)
  }

  /** A 2x2 system with a non-zero determinant has only one solution, so whatever
      satisfies it is what `Solve` returns. */
  lemma SolveUnique(m: Matrix, v: Matrix, beta: Matrix)
    requires IsMatrix(m, 2, 2) && IsMatrix(v, 2, 1) && IsMatrix(beta, 2, 1)
    requires Determinant(m) != 0.0
    requires MatMul(m, beta, 2, 2, 1) == v
    ensures Solve(m, v) == Ok(beta)
  {
    ProductOfTwo(m, beta);
    CramerUnique(m[0][0], m[0][1], m[1][0], m[1][1], beta[0][0], beta[1][0]);
    assert v[0][0] == m[0][0] * beta[0][0] + m[0][1] * beta[1][0];
    assert v[1][0] == m[1][0] * beta[0][0] + m[1][1] * beta[1][0];
    var det := Determinant(m);
    assert (v[0][0] * m[1][1] - m[0][1] * v[1][0]) / det == beta[0][0];
    assert (m[0][0] * v[1][0] - m[1][0] * v[0][0]) / det == beta[1][0];
    assert beta == [[beta[0][0]], [beta[1][0]]] by {
      assert beta[0] == [beta[0][0]] && beta[1] == [beta[1][0]];
    }
  }

  /** A 2x2 matrix is the display of its four entries. */
  lemma TwoByTwo(m: Matrix)
    requires IsMatrix(m, 2, 2)
    ensures m == [[m[0][0], m[0][1]], [m[1][0], m[1][1]]]
  {
    assert m[0] == [m[0][0], m[0][1]] && m[1] == [m[1][0], m[1][1]];
  }

  /** A 2x1 matrix is the display of its two entries. */
  lemma TwoByOne(v: Matrix)
    requires IsMatrix(v, 2, 1)
    ensures v == [[v[0][0]], [v[1][0]]]
  {
    assert v[0] == [v[0][0]] && v[1] == [v[1][0]];
  }

  /** The product of a 2x2 matrix with a 2x1 matrix, written out. */
  lemma ProductOfTwo(m: Matrix, beta: Matrix)
    requires IsMatrix(m, 2, 2) && IsMatrix(beta, 2, 1)
    ensures MatMul(m, beta, 2, 2, 1)[0][0] == m[0][0] * beta[0][0] + m[0][1] * beta[1][0]
    ensures MatMul(m, beta, 2, 2, 1)[1][0] == m[1][0] * beta[0][0] + m[1][1] * beta[1][0]
  {
    var a, b, c, d := m[0][0], m[0][1], m[1][0], m[1][1];
    var x, y := beta[0][0], beta[1][0];
    assert m == [[a, b], [c, d]] by {
      assert m[0] == [a, b] && m[1] == [c, d];
    }
    assert beta == [[x], [y]] by {
      assert beta[0] == [x] && beta[1] == [y];
    }
    ProductOfScalars(a, b, c, d, x, y);
  }

  /** [[a, b], [c, d]] times [[x], [y]] is [[a x + b y], [c x + d y]]. */
  lemma ProductOfScalars(a: real, b: real, c: real, d: real, x: real, y: real)
    ensures MatMul([[a, b], [c, d]], [[x], [y]], 2, 2, 1) == [[a * x + b * y], [c * x + d * y]]
  {
    var r := MatMul([[a, b], [c, d]], [[x], [y]], 2, 2, 1);
    var col := ColumnAt([[x], [y]], 2, 0);
    assert col == [x, y];
    PairProducts(a, b, x, y);
    PairProducts(c, d, x, y);
    assert r[0][0] == SumProducts([a, b], col);
    assert r[1][0] == SumProducts([c, d], col);
    assert r[0] == [a * x + b * y] && r[1] == [c * x + d * y];
  }

  /** A dot product of two-element lists. */
  lemma PairProducts(a: real, b: real, x: real, y: real)
    ensures SumProducts([a, b], [x, y]) == a * x + b * y
  {
    assert [a, b][..1] == [a] && [x, y][..1] == [x];
    assert [a][..0] == [] && [x][..0] == [];
    assert SumProducts([a], [x]) == a * x;
    assert SumProducts([a, b], [x, y]) == SumProducts([a], [x]) + b * y;
  }

  /** Cramer's rule: the quotients solve a x + b y == e, c x + d y == f. */
  lemma CramerSolves(a: real, b: real, c: real, d: real, e: real, f: real)
    requires a * d - b * c != 0.0
    ensures a * ((e * d - b * f) / (a * d - b * c)) + b * ((a * f - c * e) / (a * d - b * c)) == e
    ensures c * ((e * d - b * f) / (a * d - b * c)) + d * ((a * f - c * e) / (a * d - b * c)) == f
  {
    var det := a * d - b * c;
    var x := (e * d - b * f) / det;
    var y := (a * f - c * e) / det;
    assert x * det == e * d - b * f;
    assert y * det == a * f - c * e;
    assert (a * x + b * y) * det == e * det;
    assert (c * x + d * y) * det == f * det;
    CancelFactor(a * x + b * y, e, det);
    CancelFactor(c * x + d * y, f, det);
  }

  /** Conversely, a solution of a x + b y, c x + d y is given by Cramer's quotients. */
  lemma CramerUnique(a: real, b: real, c: real, d: real, x: real, y: real)
    requires a * d - b * c != 0.0
    ensures ((a * x + b * y) * d - b * (c * x + d * y)) / (a * d - b * c) == x
    ensures (a * (c * x + d * y) - c * (a * x + b * y)) / (a * d - b * c) == y
  {
    var det := a * d - b * c;
    assert (a * x + b * y) * d - b * (c * x + d * y) == x * det;
    assert a * (c * x + d * y) - c * (a * x + b * y) == y * det;
  }

  lemma CancelFactor(u: real, v: real, k: real)
    requires k != 0.0 && u * k == v * k
    ensures u == v
  {
    assert (u - v) * k == 0.0;
  }

  /** `matmul(a.transpose(), a)` is symmetric: entry (i, j) is the dot product of
      columns i and j of a. */
  lemma GramSymmetric(a: Matrix, n: nat, k: nat, i: nat, j: nat)
    requires IsMatrix(a, n, k) && i < k && j < k
    ensures MatMul(Transpose(a, n, k), a, k, n, k)[i][j] == SumProducts(ColumnAt(a, n, i), ColumnAt(a, n, j))
    ensures MatMul(Transpose(a, n, k), a, k, n, k)[i][j] == MatMul(Transpose(a, n, k), a, k, n, k)[j][i]
  {
    var t := Transpose(a, n, k);
    assert t[i] == ColumnAt(a, n, i);
    assert t[j] == ColumnAt(a, n, j);
    SumProductsSymmetric(ColumnAt(a, n, i), ColumnAt(a, n, j));
  }
}
