/**
 * `ols` (app/csat/page.tsx): ordinary least squares through the normal
 * equations. The coefficients are `inv(XᵀX) · Xᵀy`; the intercept is
 * `mean(y) - β · mean(X, 0)`; the fit is scored by `R² = 1 - SSres / SStot`,
 * with a constant target (`SStot == 0`) scored 0.
 *
 * mathjs `inv` is the parameter `inv`: `None` stands for the exception it throws
 * on a singular matrix. A result that is not `p`-by-`p` would make the following
 * `multiply` throw, so it is treated the same way.
 */
module LeastSquares {
  import opened Wrappers
  import opened Algebra

  /** What `ols` returns: the coefficients, the intercept and R². */
  datatype OlsFit = OlsFit(beta: seq<real>, intercept: real, r2: real)

  /** `XTX = multiply(transpose(X), X)`. */
  function Gram(X: seq<seq<real>>, p: nat): (G: seq<seq<real>>)
    requires Rect(X, p)
    ensures |G| == p && Rect(G, p)
  {
    MatMul(Transpose(X, p), X, p)
  }

  /** `XTy = multiply(transpose(X), y)`. */
  function Moment(X: seq<seq<real>>, y: seq<real>, p: nat): (m: seq<real>)
    requires |X| == |y| && Rect(X, p)
    ensures |m| == p
  {
    MatVec(Transpose(X, p), y)
  }

  /** `beta = multiply(inv(XTX), XTy)`; `None` when the inversion throws. */
  function Coefficients(X: seq<seq<real>>, y: seq<real>, p: nat,
                        inv: seq<seq<real>> -> Option<seq<seq<real>>>): (beta: Option<seq<real>>)
    requires |X| == |y| && Rect(X, p)
    ensures beta.Some? ==> |beta.value| == p
  {
    match inv(Gram(X, p))
    case None => None
    case Some(M) => if |M| == p && Rect(M, p) then Some(MatVec(M, Moment(X, y, p))) else None
  }

  /** The fitted values: every row's intercept plus its coefficient-weighted predictors. */
  function Predictions(X: seq<seq<real>>, beta: seq<real>, intercept: real): (yhat: seq<real>)
    requires Rect(X, |beta|)
    ensures |yhat| == |X|
  {
    seq(|X|, i requires 0 <= i < |X| => intercept + Dot(beta, X[i]))
  }

  /** `ss_res`: the squared residuals, summed. */
  function ResidualSS(y: seq<real>, yhat: seq<real>): (ss: real)
    requires |y| == |yhat|
    ensures 0.0 <= ss
  {
    SumSquaresNonNegative(Minus(y, yhat));
    Sum(Squares(Minus(y, yhat)))
  }

  /** `ss_tot`: the squared deviations of the target from its mean, summed. */
  function TotalSS(y: seq<real>): (ss: real)
    requires |y| > 0
    ensures 0.0 <= ss
  {
    SumSquaresNonNegative(Shift(y, Average(y)));
    Sum(Squares(Shift(y, Average(y))))
  }

  /** `1 - ss_res / ss_tot`, and 0 when the target does not vary; never above 1. */
  function RSquared(ssRes: real, ssTot: real): (r2: real)
    ensures 0.0 <= ssRes && 0.0 <= ssTot ==> r2 <= 1.0
  {
    if ssTot == 0.0 then 0.0 else 1.0 - ssRes / ssTot
  }

  /** `ols(X, y)`; `None` when `inv` throws. */
  function Ols(X: seq<seq<real>>, y: seq<real>, p: nat,
               inv: seq<seq<real>> -> Option<seq<seq<real>>>): (r: Option<OlsFit>)
    requires |X| == |y| > 0 && Rect(X, p)
    ensures r.Some? ==> |r.value.beta| == p && r.value.r2 <= 1.0
    ensures r.Some? <==> Coefficients(X, y, p, inv).Some?
  {
    match Coefficients(X, y, p, inv)
    case None => None
    case Some(beta) =>
      var intercept := Average(y) - Dot(beta, ColumnMeans(X, p));
      var yhat := Predictions(X, beta, intercept);
      Some(OlsFit(beta, intercept, RSquared(ResidualSS(y, yhat), TotalSS(y))))
  }

  // ---------------------------------------------------------------- lemmas

  /** The total sum of squares vanishes exactly when the target is constant. */
  lemma TotalSSZeroIffConstant(y: seq<real>)
    requires |y| > 0
    ensures TotalSS(y) == 0.0 <==> forall i :: 0 <= i < |y| ==> y[i] == Average(y)
  {
    var m := Average(y);
    var d := Shift(y, m);
    if TotalSS(y) == 0.0 {
      forall i | 0 <= i < |y|
        ensures y[i] == m
      {
        if y[i] != m {
          SumSquaresPositive(d, i);
        }
      }
    } else if forall i :: 0 <= i < |y| ==> y[i] == m {
      assert Squares(d) == Constant(|y|, 0.0);
      SumConstant(|y|, 0.0);
    }
  }

  /** The `ss_tot === 0` guard: a constant target is scored R² = 0 whatever the fit. */
  lemma ConstantTargetScoresZero(X: seq<seq<real>>, y: seq<real>, p: nat,
                                 inv: seq<seq<real>> -> Option<seq<seq<real>>>, fit: OlsFit)
    requires |X| == |y| > 0 && Rect(X, p)
    requires Ols(X, y, p, inv) == Some(fit)
    requires forall i :: 0 <= i < |y| ==> y[i] == y[0]
    ensures fit.r2 == 0.0
  {
    assert Average(y) == y[0] by {
      assert y == Constant(|y|, y[0]);
      AverageConstant(|y|, y[0]);
    }
    TotalSSZeroIffConstant(y);
  }

  /**
   * When `inv` returns a right inverse of `XᵀX`, the coefficients exist and solve
   * the normal equations `XᵀX β = Xᵀy`.
   */
  lemma NormalEquations(X: seq<seq<real>>, y: seq<real>, p: nat,
                        inv: seq<seq<real>> -> Option<seq<seq<real>>>, M: seq<seq<real>>)
    requires |X| == |y| && Rect(X, p)
    requires inv(Gram(X, p)) == Some(M) && |M| == p && Rect(M, p)
    requires MatMul(Gram(X, p), M, p) == Identity(p)
    ensures Coefficients(X, y, p, inv).Some?
    ensures MatVec(Gram(X, p), Coefficients(X, y, p, inv).value) == Moment(X, y, p)
  {
    var v := Moment(X, y, p);
    MatVecMatMul(Gram(X, p), M, v);
    MatVecIdentity(v);
  }

  /** The column means of a centred matrix are all zero. */
  lemma CenteredMeans(X: seq<seq<real>>, p: nat)
    requires |X| > 0 && Rect(X, p) && Centered(X, p)
    ensures ColumnMeans(X, p) == Constant(p, 0.0)
  {
  }

  /** On centred predictors (the z-scores) the intercept is the target's mean. */
  lemma CenteredIntercept(X: seq<seq<real>>, y: seq<real>, p: nat,
                          inv: seq<seq<real>> -> Option<seq<seq<real>>>, fit: OlsFit)
    requires |X| == |y| > 0 && Rect(X, p) && Centered(X, p)
    requires Ols(X, y, p, inv) == Some(fit)
    ensures fit.intercept == Average(y)
  {
    CenteredMeans(X, p);
    DotSymmetric(fit.beta, Constant(p, 0.0));
    DotConstantLeft(0.0, fit.beta);
  }

  /** Column `j` of a centred matrix is uncorrelated with the residuals of a normal-equation solution. */
  lemma ResidualColumn(X: seq<seq<real>>, y: seq<real>, p: nat, beta: seq<real>, j: nat)
    requires |X| == |y| > 0 && Rect(X, p) && |beta| == p && j < p && Centered(X, p)
    requires MatVec(Gram(X, p), beta) == Moment(X, y, p)
    ensures Dot(Col(X, j), Minus(Shift(y, Average(y)), MatVec(X, beta))) == 0.0
  {
    var n, ym := |y|, Average(y);
    var c, f := Col(X, j), MatVec(X, beta);
    assert Dot(c, Shift(y, ym)) == Dot(c, y) by {
      assert Shift(y, ym) == Minus(y, Constant(n, ym));
      DotMinusRight(c, y, Constant(n, ym));
      DotSymmetric(c, Constant(n, ym));
      DotConstantLeft(ym, c);
    }
    assert Dot(c, f) == Dot(c, y) by {
      MatVecMatMul(Transpose(X, p), X, beta);
      assert MatVec(Transpose(X, p), f)[j] == Moment(X, y, p)[j];
    }
    DotMinusRight(c, Shift(y, ym), f);
  }

  /** The residuals are orthogonal to the fitted deviations. */
  lemma ResidualsOrthogonal(X: seq<seq<real>>, y: seq<real>, p: nat, beta: seq<real>)
    requires |X| == |y| > 0 && Rect(X, p) && |beta| == p && Centered(X, p)
    requires MatVec(Gram(X, p), beta) == Moment(X, y, p)
    ensures Dot(MatVec(X, beta), Minus(Shift(y, Average(y)), MatVec(X, beta))) == 0.0
  {
    var f := MatVec(X, beta);
    var e := Minus(Shift(y, Average(y)), f);
    assert MatVec(Transpose(X, p), e) == Constant(p, 0.0) by {
      forall j | 0 <= j < p
        ensures MatVec(Transpose(X, p), e)[j] == 0.0
      {
        ResidualColumn(X, y, p, beta, j);
      }
    }
    DotMatVec(e, X, beta);
    DotConstantLeft(0.0, beta);
    DotSymmetric(f, e);
  }

  /**
   * For centred predictors and coefficients solving the normal equations, the
   * total sum of squares splits into the explained part and the residual part.
   */
  lemma FitDecomposition(X: seq<seq<real>>, y: seq<real>, p: nat, beta: seq<real>)
    requires |X| == |y| > 0 && Rect(X, p) && |beta| == p && Centered(X, p)
    requires MatVec(Gram(X, p), beta) == Moment(X, y, p)
    ensures TotalSS(y) == Sum(Squares(MatVec(X, beta))) + ResidualSS(y, Predictions(X, beta, Average(y)))
  {
    var ym := Average(y);
    var f := MatVec(X, beta);
    var d := Shift(y, ym);
    var e := Minus(d, f);
    assert Minus(y, Predictions(X, beta, ym)) == e by {
      forall i | 0 <= i < |y|
        ensures Minus(y, Predictions(X, beta, ym))[i] == e[i]
      {
        DotSymmetric(beta, X[i]);
      }
    }
    assert d == Plus(f, e);
    assert Dot(f, e) == 0.0 by {
      ResidualsOrthogonal(X, y, p, beta);
    }
    SumSquaresPlus(f, e);
  }

  /**
   * With centred predictors and a right inverse from `inv`, `ols` succeeds, its
   * intercept is the target's mean, and R² lies in [0, 1]: it is the explained
   * share of the total sum of squares, or 0 for a constant target.
   */
  lemma R2Bounds(X: seq<seq<real>>, y: seq<real>, p: nat,
                 inv: seq<seq<real>> -> Option<seq<seq<real>>>, M: seq<seq<real>>)
    requires |X| == |y| > 0 && Rect(X, p) && Centered(X, p)
    requires inv(Gram(X, p)) == Some(M) && |M| == p && Rect(M, p)
    requires MatMul(Gram(X, p), M, p) == Identity(p)
    ensures Ols(X, y, p, inv).Some?
    ensures Ols(X, y, p, inv).value.intercept == Average(y)
    ensures 0.0 <= Ols(X, y, p, inv).value.r2 <= 1.0
    ensures TotalSS(y) != 0.0 ==>
      Ols(X, y, p, inv).value.r2 == Sum(Squares(MatVec(X, Ols(X, y, p, inv).value.beta))) / TotalSS(y)
  {
    NormalEquations(X, y, p, inv, M);
    var fit := Ols(X, y, p, inv).value;
    CenteredIntercept(X, y, p, inv, fit);
    var explained := Sum(Squares(MatVec(X, fit.beta)));
    var ssRes := ResidualSS(y, Predictions(X, fit.beta, Average(y)));
    var ssTot := TotalSS(y);
    FitDecomposition(X, y, p, fit.beta);
    SumSquaresNonNegative(MatVec(X, fit.beta));
    SumSquaresNonNegative(Minus(y, Predictions(X, fit.beta, Average(y))));
    assert fit.r2 == RSquared(ssRes, ssTot);
    if ssTot != 0.0 {
      ExplainedShare(explained, ssRes, ssTot);
    }
  }

  /** The arithmetic of `R2Bounds`: `1 - r / (e + r) == e / (e + r)`, which lies in [0, 1]. */
  lemma ExplainedShare(explained: real, ssRes: real, ssTot: real)
    requires 0.0 <= explained && 0.0 <= ssRes && ssTot == explained + ssRes && ssTot != 0.0
    ensures 1.0 - ssRes / ssTot == explained / ssTot
    ensures 0.0 <= explained / ssTot <= 1.0
  {
    assert 0.0 < ssTot;
    assert ssRes / ssTot + explained / ssTot == (ssRes + explained) / ssTot == 1.0;
    assert explained / ssTot <= ssTot / ssTot;
  }

  /** The predictions of centred predictors sum to zero, whatever the coefficients. */
  lemma CenteredPredictionsSum(X: seq<seq<real>>, p: nat, b: seq<real>)
    requires Rect(X, p) && |b| == p && Centered(X, p)
    ensures Sum(MatVec(X, b)) == 0.0
  {
    var ones := Constant(|X|, 1.0);
    assert MatVec(Transpose(X, p), ones) == Constant(p, 0.0) by {
      forall j | 0 <= j < p
        ensures MatVec(Transpose(X, p), ones)[j] == 0.0
      {
        DotSymmetric(Col(X, j), ones);
        DotConstantLeft(1.0, Col(X, j));
      }
    }
    DotMatVec(ones, X, b);
    DotConstantLeft(1.0, MatVec(X, b));
    DotConstantLeft(0.0, b);
  }

  /** For a target that is exactly `c + X b`, the moments are those of the coefficients `b`. */
  lemma ExactMoment(X: seq<seq<real>>, y: seq<real>, p: nat, b: seq<real>, c: real)
    requires |X| == |y| && Rect(X, p) && |b| == p && Centered(X, p)
    requires y == Plus(Constant(|y|, c), MatVec(X, b))
    ensures Moment(X, y, p) == MatVec(Gram(X, p), b)
  {
    var f := MatVec(X, b);
    MatVecMatMul(Transpose(X, p), X, b);
    forall j | 0 <= j < p
      ensures Moment(X, y, p)[j] == MatVec(Transpose(X, p), f)[j]
    {
      var col := Col(X, j);
      DotSymmetric(col, y);
      DotPlusLeft(Constant(|y|, c), f, col);
      DotConstantLeft(c, col);
      DotSymmetric(f, col);
    }
  }

  /**
   * A target that is exactly affine in centred predictors is recovered: with a
   * left inverse from `inv`, the coefficients are `b`, the intercept is `c`, no
   * residual is left, and R² is 1 (0 when the target is constant).
   */
  lemma PerfectFit(X: seq<seq<real>>, y: seq<real>, p: nat,
                   inv: seq<seq<real>> -> Option<seq<seq<real>>>, M: seq<seq<real>>,
                   b: seq<real>, c: real)
    requires |X| == |y| > 0 && Rect(X, p) && |b| == p && Centered(X, p)
    requires y == Plus(Constant(|y|, c), MatVec(X, b))
    requires inv(Gram(X, p)) == Some(M) && |M| == p && Rect(M, p)
    requires MatMul(M, Gram(X, p), p) == Identity(p)
    ensures Ols(X, y, p, inv) == Some(OlsFit(b, c, if TotalSS(y) == 0.0 then 0.0 else 1.0))
  {
    assert Coefficients(X, y, p, inv) == Some(b) by {
      ExactCoefficients(X, y, p, inv, M, b, c);
    }
    assert Average(y) == c by {
      ExactMean(X, y, p, b, c);
    }
    var fit := Ols(X, y, p, inv).value;
    assert fit.beta == b;
    assert fit.intercept == c by {
      CenteredIntercept(X, y, p, inv, fit);
    }
    assert ResidualSS(y, Predictions(X, b, c)) == 0.0 by {
      NoResidual(X, y, b, c);
    }
  }

  /** With a left inverse, the normal equations of a target `c + X b` give back `b`. */
  lemma ExactCoefficients(X: seq<seq<real>>, y: seq<real>, p: nat,
                          inv: seq<seq<real>> -> Option<seq<seq<real>>>, M: seq<seq<real>>,
                          b: seq<real>, c: real)
    requires |X| == |y| && Rect(X, p) && |b| == p && Centered(X, p)
    requires y == Plus(Constant(|y|, c), MatVec(X, b))
    requires inv(Gram(X, p)) == Some(M) && |M| == p && Rect(M, p)
    requires MatMul(M, Gram(X, p), p) == Identity(p)
    ensures Coefficients(X, y, p, inv) == Some(b)
  {
    ExactMoment(X, y, p, b, c);
    MatVecMatMul(M, Gram(X, p), b);
    MatVecIdentity(b);
  }

  /** On centred predictors, a target `c + X b` has mean `c`. */
  lemma ExactMean(X: seq<seq<real>>, y: seq<real>, p: nat, b: seq<real>, c: real)
    requires |X| == |y| > 0 && Rect(X, p) && |b| == p && Centered(X, p)
    requires y == Plus(Constant(|y|, c), MatVec(X, b))
    ensures Average(y) == c
  {
    var n := |y|;
    SumPlus(Constant(n, c), MatVec(X, b));
    SumConstant(n, c);
    CenteredPredictionsSum(X, p, b);
    assert Sum(y) == Sum(Constant(n, c));
    AverageConstant(n, c);
  }

  /** A target that is exactly `c + X b` leaves no residual against those coefficients. */
  lemma NoResidual(X: seq<seq<real>>, y: seq<real>, b: seq<real>, c: real)
    requires |X| == |y| && Rect(X, |b|)
    requires y == Plus(Constant(|y|, c), MatVec(X, b))
    ensures ResidualSS(y, Predictions(X, b, c)) == 0.0
  {
    var n := |y|;
    assert Minus(y, Predictions(X, b, c)) == Constant(n, 0.0) by {
      forall i | 0 <= i < n
        ensures Minus(y, Predictions(X, b, c))[i] == 0.0
      {
        DotSymmetric(b, X[i]);
      }
    }
    assert Squares(Constant(n, 0.0)) == Constant(n, 0.0);
    SumConstant(n, 0.0);
  }
}
