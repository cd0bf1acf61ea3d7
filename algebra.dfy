/**
 * Finite sums, dot products and the small amount of matrix algebra that the
 * regression needs (transpose, matrix-vector and matrix-matrix products),
 * all over `real`. These stand for the mathjs `transpose` and `multiply`
 * calls and for the `reduce` folds of the pipeline.
 */
module Algebra {

  /** Left-to-right sum: the `reduce((a, b) => a + b, 0)` fold. */
  function Sum(s: seq<real>): real
  {
    if |s| == 0 then 0.0 else Sum(s[..|s| - 1]) + s[|s| - 1]
  }

  /** Arithmetic mean of a non-empty sequence. */
  function Average(s: seq<real>): real
    requires |s| > 0
  {
    Sum(s) / |s| as real
  }

  function Scale(c: real, s: seq<real>): seq<real>
  {
    seq(|s|, i requires 0 <= i < |s| => c * s[i])
  }

  /** Every element minus `m` (centering). */
  function Shift(s: seq<real>, m: real): seq<real>
  {
    seq(|s|, i requires 0 <= i < |s| => s[i] - m)
  }

  function Plus(a: seq<real>, b: seq<real>): seq<real>
    requires |a| == |b|
  {
    seq(|a|, i requires 0 <= i < |a| => a[i] + b[i])
  }

  function Minus(a: seq<real>, b: seq<real>): seq<real>
    requires |a| == |b|
  {
    seq(|a|, i requires 0 <= i < |a| => a[i] - b[i])
  }

  function Times(a: seq<real>, b: seq<real>): seq<real>
    requires |a| == |b|
  {
    seq(|a|, i requires 0 <= i < |a| => a[i] * b[i])
  }

  /** `Math.pow(v, 2)`. */
  function Square(x: real): real
  {
    x * x
  }

  /** `Math.pow(v, 2)` of every element. */
  function Squares(s: seq<real>): seq<real>
  {
    seq(|s|, i requires 0 <= i < |s| => Square(s[i]))
  }

  function Constant(n: nat, c: real): seq<real>
  {
    seq(n, i requires 0 <= i < n => c)
  }

  function Dot(a: seq<real>, b: seq<real>): real
    requires |a| == |b|
  {
    Sum(Times(a, b))
  }

  /** A matrix stored as rows, every row of length `p`. */
  predicate Rect(X: seq<seq<real>>, p: nat)
  {
    forall i :: 0 <= i < |X| ==> |X[i]| == p
  }

  function Col(X: seq<seq<real>>, j: nat): seq<real>
    requires forall i :: 0 <= i < |X| ==> j < |X[i]|
  {
    seq(|X|, i requires 0 <= i < |X| => X[i][j])
  }

  /** `math.transpose` of an n-by-p matrix. */
  function Transpose(X: seq<seq<real>>, p: nat): (t: seq<seq<real>>)
    requires Rect(X, p)
    ensures |t| == p && Rect(t, |X|)
  {
    seq(p, j requires 0 <= j < p => Col(X, j))
  }

  /** `math.multiply` of a matrix and a vector. */
  function MatVec(A: seq<seq<real>>, v: seq<real>): (r: seq<real>)
    requires Rect(A, |v|)
    ensures |r| == |A|
  {
    seq(|A|, i requires 0 <= i < |A| => Dot(A[i], v))
  }

  /** `math.multiply` of two matrices; `B` has `p` columns. */
  function MatMul(A: seq<seq<real>>, B: seq<seq<real>>, p: nat): (r: seq<seq<real>>)
    requires Rect(A, |B|) && Rect(B, p)
    ensures |r| == |A| && Rect(r, p)
  {
    seq(|A|, i requires 0 <= i < |A| => seq(p, k requires 0 <= k < p => Dot(A[i], Col(B, k))))
  }

  /** `math.mean(X, 0)`: the mean of every column of a non-empty matrix. */
  function ColumnMeans(X: seq<seq<real>>, p: nat): (m: seq<real>)
    requires |X| > 0 && Rect(X, p)
    ensures |m| == p
  {
    seq(p, j requires 0 <= j < p => Average(Col(X, j)))
  }

  /** Every column sums to zero. */
  predicate Centered(X: seq<seq<real>>, p: nat)
    requires Rect(X, p)
  {
    forall j :: 0 <= j < p ==> Sum(Col(X, j)) == 0.0
  }

  function Identity(p: nat): (r: seq<seq<real>>)
    ensures |r| == p && Rect(r, p)
  {
    seq(p, i requires 0 <= i < p => seq(p, j requires 0 <= j < p => if i == j then 1.0 else 0.0))
  }

  // ---------------------------------------------------------------- sums

  lemma {:induction false} SumAppend(a: seq<real>, b: seq<real>)
    ensures Sum(a + b) == Sum(a) + Sum(b)
    decreases |b|
  {
    if |b| > 0 {
      var b' := b[..|b| - 1];
      assert (a + b)[..|a + b| - 1] == a + b';
      SumAppend(a, b');
    } else {
      assert a + b == a;
    }
  }

  lemma {:induction false} SumScale(c: real, s: seq<real>)
    ensures Sum(Scale(c, s)) == c * Sum(s)
    decreases |s|
  {
    if |s| > 0 {
      var s' := s[..|s| - 1];
      ScalePrefix(c, s, |s| - 1);
      SumScale(c, s');
    }
  }

  lemma {:induction false} SumPlus(a: seq<real>, b: seq<real>)
    requires |a| == |b|
    ensures Sum(Plus(a, b)) == Sum(a) + Sum(b)
    decreases |a|
  {
    if |a| > 0 {
      var n := |a| - 1;
      assert Plus(a, b)[..n] == Plus(a[..n], b[..n]);
      SumPlus(a[..n], b[..n]);
    }
  }

  lemma {:induction false} SumMinus(a: seq<real>, b: seq<real>)
    requires |a| == |b|
    ensures Sum(Minus(a, b)) == Sum(a) - Sum(b)
    decreases |a|
  {
    if |a| > 0 {
      var n := |a| - 1;
      assert Minus(a, b)[..n] == Minus(a[..n], b[..n]);
      SumMinus(a[..n], b[..n]);
    }
  }

  lemma {:induction false} SumConstant(n: nat, c: real)
    ensures Sum(Constant(n, c)) == n as real * c
  {
    if n > 0 {
      assert Constant(n, c)[..n - 1] == Constant(n - 1, c);
      SumConstant(n - 1, c);
    }
  }

  /** The mean of `n` copies of `c` is `c`. */
  lemma AverageConstant(n: nat, c: real)
    requires n > 0
    ensures Average(Constant(n, c)) == c
  {
    SumConstant(n, c);
    var N := n as real;
    assert (N * c) / N == c;
  }

  /** Centering by `m` lowers the sum by `|s| * m`. */
  lemma {:induction false} SumShift(s: seq<real>, m: real)
    ensures Sum(Shift(s, m)) == Sum(s) - |s| as real * m
    decreases |s|
  {
    if |s| > 0 {
      var n := |s| - 1;
      assert Shift(s, m)[..n] == Shift(s[..n], m);
      SumShift(s[..n], m);
    }
  }

  lemma {:induction false} SumBelow(s: seq<real>, hi: real)
    requires forall i :: 0 <= i < |s| ==> s[i] <= hi
    ensures Sum(s) <= |s| as real * hi
    decreases |s|
  {
    if |s| > 0 {
      SumBelow(s[..|s| - 1], hi);
    }
  }

  /** One term strictly below the bound makes the sum strictly below it. */
  lemma {:induction false} SumBelowStrict(s: seq<real>, hi: real, k: nat)
    requires forall i :: 0 <= i < |s| ==> s[i] <= hi
    requires k < |s| && s[k] < hi
    ensures Sum(s) < |s| as real * hi
    decreases |s|
  {
    var n := |s| - 1;
    if k < n {
      SumBelowStrict(s[..n], hi, k);
    } else {
      SumBelow(s[..n], hi);
    }
  }

  lemma {:induction false} SumAbove(s: seq<real>, lo: real)
    requires forall i :: 0 <= i < |s| ==> lo <= s[i]
    ensures |s| as real * lo <= Sum(s)
    decreases |s|
  {
    if |s| > 0 {
      SumAbove(s[..|s| - 1], lo);
    }
  }

  /** One term strictly above the bound makes the sum strictly above it. */
  lemma {:induction false} SumAboveStrict(s: seq<real>, lo: real, k: nat)
    requires forall i :: 0 <= i < |s| ==> lo <= s[i]
    requires k < |s| && lo < s[k]
    ensures |s| as real * lo < Sum(s)
    decreases |s|
  {
    var n := |s| - 1;
    if k < n {
      SumAboveStrict(s[..n], lo, k);
    } else {
      SumAbove(s[..n], lo);
    }
  }

  /** The average lies between the smallest and the largest element. */
  lemma AverageBetween(s: seq<real>)
    requires |s| > 0
    ensures exists k :: 0 <= k < |s| && s[k] <= Average(s)
    ensures exists k :: 0 <= k < |s| && Average(s) <= s[k]
  {
    var a := Average(s);
    assert Sum(s) == |s| as real * a;
    if forall k :: 0 <= k < |s| ==> a < s[k] {
      SumAboveStrict(s, a, 0);
    }
    if forall k :: 0 <= k < |s| ==> s[k] < a {
      SumBelowStrict(s, a, 0);
    }
  }

  /** A sum of non-negative terms is zero only when every term is. */
  lemma SumZeroNonNegative(s: seq<real>)
    requires forall i :: 0 <= i < |s| ==> 0.0 <= s[i]
    requires Sum(s) == 0.0
    ensures forall i :: 0 <= i < |s| ==> s[i] == 0.0
  {
    forall k | 0 <= k < |s|
      ensures s[k] == 0.0
    {
      if s[k] != 0.0 {
        SumAboveStrict(s, 0.0, k);
      }
    }
  }

  lemma SumSquaresNonNegative(s: seq<real>)
    ensures 0.0 <= Sum(Squares(s))
  {
    SquaresNonNegative(s);
    SumAbove(Squares(s), 0.0);
  }

  /** A sum of squares is positive as soon as one term is non-zero. */
  lemma SumSquaresPositive(s: seq<real>, k: nat)
    requires k < |s| && s[k] != 0.0
    ensures 0.0 < Sum(Squares(s))
  {
    var q := Squares(s);
    SquaresNonNegative(s);
    assert 0.0 < q[k] by {
      SquarePositive(s[k]);
    }
    SumAboveStrict(q, 0.0, k);
  }

  /** The square of a non-zero number is positive (argued through `x * x / x == x`). */
  lemma SquarePositive(x: real)
    requires x != 0.0
    ensures 0.0 < Square(x)
  {
    var q := Square(x);
    assert q == x * x;
    if x > 0.0 {
      assert q / x == x;
      assert q > 0.0;
    } else {
      assert q / x == x;
    }
  }

  // Division facts, each argued through the product it inverts.

  lemma DivBounds(a: real, s: real)
    requires 0.0 <= a <= s && 0.0 < s
    ensures 0.0 <= a / s <= 1.0
  {
    var q := a / s;
    assert q * s == a;
  }

  lemma DivMonotone(a: real, b: real, s: real)
    requires a <= b && 0.0 < s
    ensures a / s <= b / s
  {
    var q, r := a / s, b / s;
    assert q * s == a && r * s == b;
  }

  lemma DivCancel(c: real, a: real, s: real)
    requires c != 0.0 && s != 0.0
    ensures (c * a) / (c * s) == a / s
  {
    var q := a / s;
    assert q * s == a;
    assert q * (c * s) == c * a;
  }

  lemma DivSelf(s: real)
    requires s != 0.0
    ensures s / s == 1.0
  {
  }

  lemma DivTimes(a: real, s: real)
    requires s != 0.0
    ensures (a / s) * s == a
    ensures a / s == (1.0 / s) * a
  {
    var q, u := a / s, 1.0 / s;
    assert q * s == a && u * s == 1.0;
    assert (u * a) * s == a;
  }

  lemma ProductZero(a: real, b: real)
    requires a * b == 0.0
    ensures a == 0.0 || b == 0.0
  {
    if a != 0.0 { assert (a * b) / a == b; }
  }

  lemma SquaresNonNegative(s: seq<real>)
    ensures forall i :: 0 <= i < |s| ==> 0.0 <= Squares(s)[i]
  {
    forall i | 0 <= i < |s|
      ensures 0.0 <= Squares(s)[i]
    {
      var v := s[i];
      assert v * v >= 0.0;
    }
  }

  // Prefixes of the element-wise products, element by element (the solver does not
  // find these extensional equalities on its own once multiplication is involved).

  lemma ScalePrefix(c: real, s: seq<real>, n: nat)
    requires n <= |s|
    ensures Scale(c, s)[..n] == Scale(c, s[..n])
  {
    forall i | 0 <= i < n
      ensures Scale(c, s)[..n][i] == Scale(c, s[..n])[i]
    {
    }
  }

  lemma TimesPrefix(a: seq<real>, b: seq<real>, n: nat)
    requires |a| == |b| && n <= |a|
    ensures Times(a, b)[..n] == Times(a[..n], b[..n])
  {
    forall i | 0 <= i < n
      ensures Times(a, b)[..n][i] == Times(a[..n], b[..n])[i]
    {
    }
  }

  lemma SquaresPrefix(s: seq<real>, n: nat)
    requires n <= |s|
    ensures Squares(s)[..n] == Squares(s[..n])
  {
    forall i | 0 <= i < n
      ensures Squares(s)[..n][i] == Squares(s[..n])[i]
    {
    }
  }

  /** Scaling every element by `c` scales the sum of squares by `c * c`. */
  lemma SumSquaresScale(c: real, s: seq<real>)
    ensures Sum(Squares(Scale(c, s))) == c * c * Sum(Squares(s))
  {
    var k := c * c;
    SquaresScale(c, s, k);
    SumScale(k, Squares(s));
  }

  lemma SquaresScale(c: real, s: seq<real>, k: real)
    requires k == c * c
    ensures Squares(Scale(c, s)) == Scale(k, Squares(s))
  {
    forall i | 0 <= i < |s|
      ensures Squares(Scale(c, s))[i] == Scale(k, Squares(s))[i]
    {
      SquareOfProduct(c, s[i], k);
    }
  }

  lemma SquareOfProduct(c: real, x: real, k: real)
    requires k == c * c
    ensures Square(c * x) == k * Square(x)
  {
    assert (c * x) * (c * x) == (c * c) * (x * x);
  }

  // ---------------------------------------------------------------- dot products

  lemma DotSymmetric(a: seq<real>, b: seq<real>)
    requires |a| == |b|
    ensures Dot(a, b) == Dot(b, a)
  {
    assert Times(a, b) == Times(b, a);
  }

  lemma DotAppend(a: seq<real>, b: seq<real>, x: real, y: real)
    requires |a| == |b|
    ensures Dot(a + [x], b + [y]) == Dot(a, b) + x * y
  {
    TimesPrefix(a + [x], b + [y], |a|);
    assert (a + [x])[..|a|] == a && (b + [y])[..|a|] == b;
  }

  lemma {:induction false} DotPlusLeft(a: seq<real>, b: seq<real>, c: seq<real>)
    requires |a| == |b| == |c|
    ensures Dot(Plus(a, b), c) == Dot(a, c) + Dot(b, c)
  {
    forall i | 0 <= i < |a|
      ensures Times(Plus(a, b), c)[i] == Plus(Times(a, c), Times(b, c))[i]
    {
      assert (a[i] + b[i]) * c[i] == a[i] * c[i] + b[i] * c[i];
    }
    assert Times(Plus(a, b), c) == Plus(Times(a, c), Times(b, c));
    SumPlus(Times(a, c), Times(b, c));
  }

  lemma {:induction false} DotScaleLeft(x: real, a: seq<real>, c: seq<real>)
    requires |a| == |c|
    ensures Dot(Scale(x, a), c) == x * Dot(a, c)
  {
    forall i | 0 <= i < |a|
      ensures Times(Scale(x, a), c)[i] == Scale(x, Times(a, c))[i]
    {
      assert (x * a[i]) * c[i] == x * (a[i] * c[i]);
    }
    assert Times(Scale(x, a), c) == Scale(x, Times(a, c));
    SumScale(x, Times(a, c));
  }

  lemma {:induction false} DotConstantLeft(c: real, b: seq<real>)
    ensures Dot(Constant(|b|, c), b) == c * Sum(b)
  {
    forall i | 0 <= i < |b|
      ensures Times(Constant(|b|, c), b)[i] == Scale(c, b)[i]
    {
    }
    assert Times(Constant(|b|, c), b) == Scale(c, b);
    SumScale(c, b);
  }

  lemma DotMinusRight(c: seq<real>, a: seq<real>, b: seq<real>)
    requires |a| == |b| == |c|
    ensures Dot(c, Minus(a, b)) == Dot(c, a) - Dot(c, b)
  {
    forall i | 0 <= i < |a|
      ensures Times(c, Minus(a, b))[i] == Minus(Times(c, a), Times(c, b))[i]
    {
      assert c[i] * (a[i] - b[i]) == c[i] * a[i] - c[i] * b[i];
    }
    assert Times(c, Minus(a, b)) == Minus(Times(c, a), Times(c, b));
    SumMinus(Times(c, a), Times(c, b));
  }

  /** Picking coordinate `k` with a unit vector. */
  lemma {:induction false} DotUnit(p: nat, k: nat, b: seq<real>)
    requires k < p == |b|
    ensures Dot(Identity(p)[k], b) == b[k]
  {
    var e := Identity(p)[k];
    assert Times(e, b) == Times(e, b)[..k] + [b[k]] + Times(e, b)[k + 1..];
    assert Times(e, b)[..k] == Constant(k, 0.0);
    assert Times(e, b)[k + 1..] == Constant(p - k - 1, 0.0);
    SumAppend(Times(e, b)[..k] + [b[k]], Times(e, b)[k + 1..]);
    SumAppend(Times(e, b)[..k], [b[k]]);
    SumConstant(k, 0.0);
    SumConstant(p - k - 1, 0.0);
    assert Sum([b[k]]) == Sum([b[k]][..0]) + b[k];
  }

  /** The square of a sum of two vectors, expanded. */
  lemma {:induction false} SumSquaresPlus(f: seq<real>, e: seq<real>)
    requires |f| == |e|
    ensures Sum(Squares(Plus(f, e))) == Sum(Squares(f)) + 2.0 * Dot(f, e) + Sum(Squares(e))
    decreases |f|
  {
    if |f| > 0 {
      var n := |f| - 1;
      assert Plus(f, e)[..n] == Plus(f[..n], e[..n]);
      SquaresPrefix(Plus(f, e), n);
      SquaresPrefix(f, n);
      SquaresPrefix(e, n);
      TimesPrefix(f, e, n);
      SumSquaresPlus(f[..n], e[..n]);
      var x, y := f[n], e[n];
      assert (x + y) * (x + y) == x * x + 2.0 * (x * y) + y * y;
    }
  }

  // ---------------------------------------------------------------- matrices

  /** `a . (M b) == (M^T a) . b`: the one exchange of summation order the regression needs. */
  lemma {:induction false} DotMatVec(a: seq<real>, M: seq<seq<real>>, b: seq<real>)
    requires |a| == |M| && Rect(M, |b|)
    ensures Dot(a, MatVec(M, b)) == Dot(MatVec(Transpose(M, |b|), a), b)
    decreases |M|
  {
    var p := |b|;
    if |M| == 0 {
      assert MatVec(Transpose(M, p), a) == Constant(p, 0.0);
      DotConstantLeft(0.0, b);
    } else {
      var n := |M| - 1;
      var M', a', row, x := M[..n], a[..n], M[n], a[n];
      var u := MatVec(Transpose(M', p), a');
      assert Dot(a, MatVec(M, b)) == Dot(a', MatVec(M', b)) + x * Dot(row, b) by {
        MatVecLastRow(a, M, b);
      }
      DotMatVec(a', M', b);
      assert Dot(MatVec(Transpose(M, p), a), b) == Dot(u, b) + x * Dot(row, b) by {
        TransposeLastRow(a, M, p);
        DotPlusLeft(u, Scale(x, row), b);
        DotScaleLeft(x, row, b);
      }
    }
  }

  /** The last row's share of `a . (M b)`. */
  lemma MatVecLastRow(a: seq<real>, M: seq<seq<real>>, b: seq<real>)
    requires |a| == |M| > 0 && Rect(M, |b|)
    ensures var n := |M| - 1;
      Dot(a, MatVec(M, b)) == Dot(a[..n], MatVec(M[..n], b)) + a[n] * Dot(M[n], b)
  {
    var n := |M| - 1;
    assert MatVec(M, b) == MatVec(M[..n], b) + [Dot(M[n], b)];
    assert a == a[..n] + [a[n]];
    DotAppend(a[..n], MatVec(M[..n], b), a[n], Dot(M[n], b));
  }

  /** The last row's share of `M^T a`. */
  lemma TransposeLastRow(a: seq<real>, M: seq<seq<real>>, p: nat)
    requires |a| == |M| > 0 && Rect(M, p)
    ensures var n := |M| - 1;
      MatVec(Transpose(M, p), a) == Plus(MatVec(Transpose(M[..n], p), a[..n]), Scale(a[n], M[n]))
  {
    var n := |M| - 1;
    var M', a' := M[..n], a[..n];
    forall j | 0 <= j < p
      ensures MatVec(Transpose(M, p), a)[j] == Plus(MatVec(Transpose(M', p), a'), Scale(a[n], M[n]))[j]
    {
      assert Col(M, j) == Col(M', j) + [M[n][j]];
      assert a == a' + [a[n]];
      DotAppend(Col(M', j), a', M[n][j], a[n]);
    }
  }

  /** `(A M) b == A (M b)`. */
  lemma MatVecMatMul(A: seq<seq<real>>, M: seq<seq<real>>, b: seq<real>)
    requires Rect(A, |M|) && Rect(M, |b|)
    ensures MatVec(MatMul(A, M, |b|), b) == MatVec(A, MatVec(M, b))
  {
    var p := |b|;
    forall i | 0 <= i < |A|
      ensures MatVec(MatMul(A, M, p), b)[i] == MatVec(A, MatVec(M, b))[i]
    {
      DotMatVec(A[i], M, b);
      forall k | 0 <= k < p
        ensures MatMul(A, M, p)[i][k] == MatVec(Transpose(M, p), A[i])[k]
      {
        DotSymmetric(A[i], Col(M, k));
      }
      assert MatMul(A, M, p)[i] == MatVec(Transpose(M, p), A[i]);
    }
  }

  lemma MatVecIdentity(b: seq<real>)
    ensures MatVec(Identity(|b|), b) == b
  {
    forall k | 0 <= k < |b|
      ensures MatVec(Identity(|b|), b)[k] == b[k]
    {
      DotUnit(|b|, k, b);
    }
  }
}
