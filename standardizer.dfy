/**
 * The standardisation step of `sanitizeAndFit` (app/csat/page.tsx): column
 * means (`math.mean(X, 0)`, `Algebra.ColumnMeans`), population standard deviations
 * (`math.std(X, 0, "uncorrected")`) with a zero deviation replaced by 1, and
 * the z-scores `(v - xMeans[j]) / xStd[j]`.
 *
 * The square root inside `math.std` is the parameter `root`.
 */
module Standardizer {
  import opened Algebra

  /** `s === 0 ? 1 : s`, and the same guard `xStd[i] || 1` of `predictedDelta`: never a zero divisor. */
  function Guard(s: real): (g: real)
    ensures g != 0.0
    ensures s != 0.0 ==> g == s
  {
    if s == 0.0 then 1.0 else s
  }

  /** The uncorrected (population) variance: mean squared deviation from the mean. */
  function Variance(col: seq<real>): real
    requires |col| > 0
  {
    Sum(Squares(Shift(col, Average(col)))) / |col| as real
  }

  /** `math.std(X, 0, "uncorrected").map(s => s === 0 ? 1 : s)`. */
  function StdDevs(X: seq<seq<real>>, p: nat, root: real -> real): (sd: seq<real>)
    requires |X| > 0 && Rect(X, p)
    ensures |sd| == p && forall j :: 0 <= j < p ==> sd[j] != 0.0
  {
    var sd := seq(p, j requires 0 <= j < p => Guard(root(Variance(Col(X, j)))));
    assert forall j :: 0 <= j < p ==> sd[j] == Guard(root(Variance(Col(X, j))));
    sd
  }

  /** `Xz`: every cell centred by its column mean and divided by its column's deviation. */
  function Standardize(X: seq<seq<real>>, p: nat, means: seq<real>, sd: seq<real>): (Z: seq<seq<real>>)
    requires Rect(X, p) && |means| == p && |sd| == p
    requires forall j :: 0 <= j < p ==> sd[j] != 0.0
    ensures |Z| == |X| && Rect(Z, p)
  {
    seq(|X|, i requires 0 <= i < |X| => seq(p, j requires 0 <= j < p => (X[i][j] - means[j]) / sd[j]))
  }

  // ---------------------------------------------------------------- lemmas

  lemma VarianceNonNegative(col: seq<real>)
    requires |col| > 0
    ensures 0.0 <= Variance(col)
  {
    SumSquaresNonNegative(Shift(col, Average(col)));
  }

  /** The variance is zero exactly when every entry equals the mean, i.e. the column is constant. */
  lemma VarianceZeroIffConstant(col: seq<real>)
    requires |col| > 0
    ensures Variance(col) == 0.0 <==> forall i :: 0 <= i < |col| ==> col[i] == Average(col)
  {
    var m := Average(col);
    var d := Shift(col, m);
    if Variance(col) == 0.0 {
      forall i | 0 <= i < |col|
        ensures col[i] == m
      {
        if col[i] != m {
          SumSquaresPositive(d, i);
        }
      }
    } else if forall i :: 0 <= i < |col| ==> col[i] == m {
      assert Squares(d) == Constant(|col|, 0.0);
      SumConstant(|col|, 0.0);
    }
  }

  /** Column `j` of the z-scores is column `j` centred and scaled by `1 / sd[j]`. */
  lemma StandardizedColumn(X: seq<seq<real>>, p: nat, means: seq<real>, sd: seq<real>, j: nat)
    requires Rect(X, p) && |means| == p && |sd| == p && j < p
    requires forall k :: 0 <= k < p ==> sd[k] != 0.0
    ensures Col(Standardize(X, p, means, sd), j) == Scale(1.0 / sd[j], Shift(Col(X, j), means[j]))
  {
    var Z := Standardize(X, p, means, sd);
    forall i | 0 <= i < |X|
      ensures Col(Z, j)[i] == Scale(1.0 / sd[j], Shift(Col(X, j), means[j]))[i]
    {
      var v, m, s := X[i][j], means[j], sd[j];
      assert (v - m) / s == 1.0 / s * (v - m);
    }
  }

  /** Every z-score column sums to zero: the standardised predictors are centred. */
  lemma StandardizedCentered(X: seq<seq<real>>, p: nat, root: real -> real, j: nat)
    requires |X| > 0 && Rect(X, p) && j < p
    ensures Sum(Col(Standardize(X, p, ColumnMeans(X, p), StdDevs(X, p, root)), j)) == 0.0
  {
    var means, sd := ColumnMeans(X, p), StdDevs(X, p, root);
    var col := Col(X, j);
    StandardizedColumn(X, p, means, sd, j);
    SumScale(1.0 / sd[j], Shift(col, means[j]));
    SumShift(col, means[j]);
    assert Sum(col) == |X| as real * means[j];
  }

  /** The z-scores invert: every cell is its column mean plus its deviation times its z-score. */
  lemma StandardizeInverts(X: seq<seq<real>>, p: nat, means: seq<real>, sd: seq<real>)
    requires Rect(X, p) && |means| == p && |sd| == p
    requires forall j :: 0 <= j < p ==> sd[j] != 0.0
    ensures forall i, j :: 0 <= i < |X| && 0 <= j < p ==>
      X[i][j] == means[j] + sd[j] * Standardize(X, p, means, sd)[i][j]
  {
    forall i, j | 0 <= i < |X| && 0 <= j < p
      ensures X[i][j] == means[j] + sd[j] * Standardize(X, p, means, sd)[i][j]
    {
      var v, m, s := X[i][j], means[j], sd[j];
      assert s * ((v - m) / s) == v - m;
    }
  }

  /**
   * A constant predictor (zero variance, so `math.std` gives 0 and the guard 1)
   * standardises to a column of zeros, whatever the square root returns.
   */
  lemma ConstantColumnVanishes(X: seq<seq<real>>, p: nat, root: real -> real, j: nat)
    requires |X| > 0 && Rect(X, p) && j < p
    requires Variance(Col(X, j)) == 0.0
    ensures Col(Standardize(X, p, ColumnMeans(X, p), StdDevs(X, p, root)), j) == Constant(|X|, 0.0)
  {
    var means, sd := ColumnMeans(X, p), StdDevs(X, p, root);
    var col := Col(X, j);
    var z := Scale(1.0 / sd[j], Shift(col, means[j]));
    VarianceZeroIffConstant(col);
    StandardizedColumn(X, p, means, sd, j);
    forall i | 0 <= i < |X|
      ensures z[i] == 0.0
    {
      assert col[i] - means[j] == 0.0;
    }
  }

  /**
   * With a square root that squares back to the variance, a non-constant predictor
   * standardises to a column of (population) variance 1.
   */
  lemma UnitVariance(X: seq<seq<real>>, p: nat, root: real -> real, j: nat)
    requires |X| > 0 && Rect(X, p) && j < p
    requires Variance(Col(X, j)) != 0.0
    requires root(Variance(Col(X, j))) * root(Variance(Col(X, j))) == Variance(Col(X, j))
    ensures Variance(Col(Standardize(X, p, ColumnMeans(X, p), StdDevs(X, p, root)), j)) == 1.0
  {
    var means, sd := ColumnMeans(X, p), StdDevs(X, p, root);
    var col := Col(X, j);
    assert sd[j] == root(Variance(col)) != 0.0;
    StandardizedColumn(X, p, means, sd, j);
    ScaledVariance(col, sd[j]);
  }

  /** Centring a list and dividing by a square root of its variance leaves variance 1. */
  lemma ScaledVariance(col: seq<real>, s: real)
    requires |col| > 0 && s != 0.0 && s * s == Variance(col)
    ensures Variance(Scale(1.0 / s, Shift(col, Average(col)))) == 1.0
  {
    var d := Shift(col, Average(col));
    var z := Scale(1.0 / s, d);
    assert Sum(d) == 0.0 by {
      SumShift(col, Average(col));
    }
    CenteredVariance(z, d, 1.0 / s);
    ScaledBack(Variance(col), s, |col| as real, Sum(Squares(d)), Sum(Squares(z)));
  }

  /** A centred list scaled by `c` stays centred, and its variance is its mean square. */
  lemma CenteredVariance(z: seq<real>, d: seq<real>, c: real)
    requires |d| > 0 && Sum(d) == 0.0 && z == Scale(c, d)
    ensures Variance(z) == Sum(Squares(z)) / |z| as real
    ensures Sum(Squares(z)) == c * c * Sum(Squares(d))
  {
    SumScale(c, d);
    assert Shift(z, 0.0) == z;
    SumSquaresScale(c, d);
  }

  /** The arithmetic of `ScaledVariance`: dividing by a square root of `v` twice cancels `v`. */
  lemma ScaledBack(v: real, s: real, n: real, squares: real, total: real)
    requires s != 0.0 && s * s == v && 0.0 < n && v == squares / n
    requires total == (1.0 / s) * (1.0 / s) * squares
    ensures total / n == 1.0
  {
    assert squares == v * n;
    assert (1.0 / s) * (1.0 / s) * (s * s) == 1.0;
  }
}
