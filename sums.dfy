/** Sums over sequences of reals, accumulated left to right as Python's `sum` and `+=` loops do. */
module Sums {

  /** s[0] + s[1] + ... + s[|s|-1] */
  function Sum(s: seq<real>): real
  {
    if |s| == 0 then 0.0 else Sum(s[..|s| - 1]) + s[|s| - 1]
  }

  /** s[0]^2 + ... + s[|s|-1]^2 */
  function SumSquares(s: seq<real>): real
  {
    if |s| == 0 then 0.0 else SumSquares(s[..|s| - 1]) + s[|s| - 1] * s[|s| - 1]
  }

  /** xs[0]*ys[0] + ... + xs[n-1]*ys[n-1] */
  function SumProducts(xs: seq<real>, ys: seq<real>): real
    requires |xs| == |ys|
  {
    if |xs| == 0 then 0.0 else SumProducts(xs[..|xs| - 1], ys[..|xs| - 1]) + xs[|xs| - 1] * ys[|xs| - 1]
  }

  /** A three-element sum written out. */
  lemma SumOfThree(s: seq<real>)
    requires |s| == 3
    ensures Sum(s) == s[0] + s[1] + s[2]
  {
    assert s[..2][..1] == s[..1];
    assert s[..1][..0] == [];
    assert Sum(s[..1]) == s[0];
    assert Sum(s[..2]) == s[0] + s[1];
  }

  /** The sum of n copies of c is n * c. */
  lemma {:induction false} SumOfConstant(s: seq<real>, c: real)
    requires forall i :: 0 <= i < |s| ==> s[i] == c
    ensures Sum(s) == |s| as real * c
  {
    if |s| > 0 {
      SumOfConstant(s[..|s| - 1], c);
    }
  }

  /** Dividing every element by t divides the sum by t. */
  lemma {:induction false} SumOfQuotients(s: seq<real>, t: real)
    requires t != 0.0
    ensures Sum(seq(|s|, i requires 0 <= i < |s| => s[i] / t)) == Sum(s) / t
  {
    var d := seq(|s|, i requires 0 <= i < |s| => s[i] / t);
    if |s| > 0 {
      var n := |s| - 1;
      SumOfQuotients(s[..n], t);
      assert d[..n] == seq(n, i requires 0 <= i < n => s[..n][i] / t);
      assert Sum(d) == Sum(s[..n]) / t + s[n] / t;
    }
  }

  /** A list of n ones: the first column of the least-squares design matrix. */
  function Ones(n: nat): (r: seq<real>)
    ensures |r| == n && forall i :: 0 <= i < n ==> r[i] == 1.0
  {
    seq(n, _ => 1.0)
  }

  /** Multiplying element-wise by ones and summing is plain summing, on either side. */
  lemma {:induction false} SumProductsWithOnes(xs: seq<real>)
    ensures SumProducts(Ones(|xs|), xs) == Sum(xs)
    ensures SumProducts(xs, Ones(|xs|)) == Sum(xs)
  {
    if |xs| > 0 {
      var n := |xs| - 1;
      assert Ones(|xs|)[..n] == Ones(n);
      SumProductsWithOnes(xs[..n]);
    }
  }

  /** The element-wise products of a list with itself are its squares. */
  lemma {:induction false} SumProductsSelf(xs: seq<real>)
    ensures SumProducts(xs, xs) == SumSquares(xs)
  {
    if |xs| > 0 {
      SumProductsSelf(xs[..|xs| - 1]);
    }
  }

  /** Element-wise products do not depend on the order of the two lists. */
  lemma {:induction false} SumProductsSymmetric(xs: seq<real>, ys: seq<real>)
    requires |xs| == |ys|
    ensures SumProducts(xs, ys) == SumProducts(ys, xs)
  {
    if |xs| > 0 {
      SumProductsSymmetric(xs[..|xs| - 1], ys[..|xs| - 1]);
    }
  }

  /** Sums of squares are never negative. */
  lemma {:induction false} SumSquaresNonNegative(s: seq<real>)
    ensures 0.0 <= SumSquares(s)
  {
    if |s| > 0 {
      SumSquaresNonNegative(s[..|s| - 1]);
      var x := s[|s| - 1];
      assert 0.0 <= x * x by {
        if x < 0.0 {
          assert 0.0 < (-x) * (-x);
        }
      }
    }
  }

  /** The square of a sum, summed: sum (e + d)^2 == sum e^2 + 2 sum d e + sum d^2. */
  lemma {:induction false} SquaresOfSum(es: seq<real>, ds: seq<real>, fs: seq<real>)
    requires |es| == |ds| == |fs|
    requires forall i :: 0 <= i < |fs| ==> fs[i] == es[i] + ds[i]
    ensures SumSquares(fs) == SumSquares(es) + 2.0 * SumProducts(ds, es) + SumSquares(ds)
  {
    if |fs| > 0 {
      var n := |fs| - 1;
      SquaresOfSum(es[..n], ds[..n], fs[..n]);
      LastSquare(fs, n);
      LastSquare(es, n);
      LastSquare(ds, n);
      LastProduct(ds, es, n);
      SquareStep(SumSquares(fs[..n]), SumSquares(es[..n]), SumProducts(ds[..n], es[..n]), SumSquares(ds[..n]),
                 es[n], ds[n], fs[n]);
    }
  }

  lemma SquareStep(a: real, b: real, c: real, d: real, e: real, g: real, f: real)
    requires a == b + 2.0 * c + d && f == e + g
    ensures a + f * f == (b + e * e) + 2.0 * (c + g * e) + (d + g * g)
  {
    assert f * f == e * e + 2.0 * (g * e) + g * g;
  }

  /** The definitions of the three sums, split before the last element, at index n. */
  lemma LastSum(s: seq<real>, n: nat)
    requires |s| == n + 1
    ensures Sum(s) == Sum(s[..n]) + s[n]
  {
  }

  lemma LastSquare(s: seq<real>, n: nat)
    requires |s| == n + 1
    ensures SumSquares(s) == SumSquares(s[..n]) + s[n] * s[n]
  {
  }

  lemma LastProduct(xs: seq<real>, ys: seq<real>, n: nat)
    requires |xs| == |ys| == n + 1
    ensures SumProducts(xs, ys) == SumProducts(xs[..n], ys[..n]) + xs[n] * ys[n]
  {
  }

  /** Summing a difference element-wise, alone and against a third list. */
  lemma {:induction false} SumOfDifference(xs: seq<real>, ys: seq<real>, zs: seq<real>, es: seq<real>)
    requires |xs| == |ys| == |zs| == |es|
    requires forall i :: 0 <= i < |es| ==> es[i] == ys[i] - zs[i]
    ensures Sum(es) == Sum(ys) - Sum(zs)
    ensures SumProducts(xs, es) == SumProducts(xs, ys) - SumProducts(xs, zs)
  {
    if |es| > 0 {
      var n := |es| - 1;
      SumOfDifference(xs[..n], ys[..n], zs[..n], es[..n]);
      LastSum(es, n);
      LastSum(ys, n);
      LastSum(zs, n);
      LastProduct(xs, es, n);
      LastProduct(xs, ys, n);
      LastProduct(xs, zs, n);
      DifferenceStep(Sum(es[..n]), Sum(ys[..n]), Sum(zs[..n]),
                     SumProducts(xs[..n], es[..n]), SumProducts(xs[..n], ys[..n]), SumProducts(xs[..n], zs[..n]),
                     xs[n], ys[n], zs[n], es[n]);
    }
  }

  lemma DifferenceStep(se: real, sy: real, sz: real, sxe: real, sxy: real, sxz: real,
                       x: real, y: real, z: real, e: real)
    requires se == sy - sz && sxe == sxy - sxz && e == y - z
    ensures se + e == (sy + y) - (sz + z)
    ensures sxe + x * e == (sxy + x * y) - (sxz + x * z)
  {
    assert x * e == x * y - x * z;
  }

  /** p a + q b. Linear identities about sums are stated with it, so that one of them can be
      used inside another without re-deriving the arithmetic. */
  function Combination(p: real, a: real, q: real, b: real): real
  {
    p * a + q * b
  }

  /** Sums are linear: if u[i] == a s[i] + b t[i] everywhere then Sum(u) == a Sum(s) + b Sum(t). */
  lemma {:induction false} SumLinear(s: seq<real>, t: seq<real>, u: seq<real>, a: real, b: real)
    requires |s| == |t| == |u|
    requires forall i :: 0 <= i < |u| ==> u[i] == Combination(a, s[i], b, t[i])
    ensures Sum(u) == Combination(a, Sum(s), b, Sum(t))
  {
    if |u| > 0 {
      var n := |u| - 1;
      SumLinear(s[..n], t[..n], u[..n], a, b);
      LastSum(s, n);
      LastSum(t, n);
      LastSum(u, n);
      LinearStep(Sum(u), Sum(s), Sum(t), Sum(u[..n]), Sum(s[..n]), Sum(t[..n]), u[n], s[n], t[n], a, b);
    }
  }

  lemma LinearStep(tu: real, ts: real, tt: real, su: real, ss: real, st: real,
                   x: real, y: real, z: real, a: real, b: real)
    requires tu == su + x && ts == ss + y && tt == st + z
    requires su == Combination(a, ss, b, st) && x == Combination(a, y, b, z)
    ensures tu == Combination(a, ts, b, tt)
  {
    assert a * (ss + y) == a * ss + a * y;
    assert b * (st + z) == b * st + b * z;
  }

  /** The element-wise products xs[i] * ys[i]. */
  function Products(xs: seq<real>, ys: seq<real>): (r: seq<real>)
    requires |xs| == |ys|
    ensures |r| == |xs| && forall i :: 0 <= i < |xs| ==> r[i] == xs[i] * ys[i]
  {
    seq(|xs|, i requires 0 <= i < |xs| => xs[i] * ys[i])
  }

  lemma PrefixOfProducts(xs: seq<real>, ys: seq<real>, n: nat)
    requires |xs| == |ys| && n <= |xs|
    ensures Products(xs, ys)[..n] == Products(xs[..n], ys[..n])
  {
    assert forall i :: 0 <= i < n ==> Products(xs, ys)[..n][i] == Products(xs[..n], ys[..n])[i];
  }

  /** SumProducts is the sum of the element-wise products. */
  lemma {:induction false} SumProductsIsSum(xs: seq<real>, ys: seq<real>)
    requires |xs| == |ys|
    ensures SumProducts(xs, ys) == Sum(Products(xs, ys))
  {
    if |xs| > 0 {
      var n := |xs| - 1;
      SumProductsIsSum(xs[..n], ys[..n]);
      PrefixOfProducts(xs, ys, n);
      LastProduct(xs, ys, n);
      LastSum(Products(xs, ys), n);
    }
  }
}
