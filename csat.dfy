/**
 * The pipeline of app/csat/page.tsx end to end: `sanitizeAndFit` for one
 * segment (select, score, filter, impute, standardise, fit) and the page's
 * analysis of an uploaded table, which fits both segments and weights the
 * standardised coefficients by feature usage, and the what-if panel on top.
 *
 * Outcomes that JavaScript expresses by throwing or by NaN are explicit here:
 * `Threw` is an exception out of `sanitizeAndFit`, `NonFinite` a fit whose
 * numbers are NaN because a predictor has no score in any kept row.
 */
module Csat {
  import opened Wrappers
  import opened Algebra
  import opened Stats
  import opened Segmenter
  import opened Standardizer
  import opened LeastSquares
  import opened Importance
  import opened WhatIf

  /** The group value of the other segment; any value but "Lab" selects the same rows. */
  const AwsSegment: string := "AWS"

  /** What `sanitizeAndFit` returns for a segment. */
  datatype Fit = Fit(columns: seq<string>, betaStd: seq<real>, intercept: real, n: nat,
                     r2: real, xStd: seq<real>, yMean: real)

  datatype FitOutcome = Fitted(fit: Fit) | Threw | NonFinite

  /** The numbers of a matrix without NaN cells. */
  function DenseValues(X: seq<seq<Option<real>>>): (V: seq<seq<real>>)
    requires Dense(X)
    ensures |V| == |X| && forall r :: 0 <= r < |X| ==> |V[r]| == |X[r]|
    ensures forall r, j :: 0 <= r < |X| && 0 <= j < |X[r]| ==> X[r][j] == Some(V[r][j])
  {
    seq(|X|, r requires 0 <= r < |X| => seq(|X[r]|, j requires 0 <= j < |X[r]| => X[r][j].value))
  }

  /** `Xz`: the predictors standardised by their means and guarded population deviations. */
  function ZScores(X: seq<seq<real>>, root: real -> real): (Z: seq<seq<real>>)
    requires |X| > 0 && Rect(X, 3)
    ensures |Z| == |X| && Rect(Z, 3)
  {
    Standardize(X, 3, ColumnMeans(X, 3), StdDevs(X, 3, root))
  }

  /** The fitted part of `sanitizeAndFit`, from a NaN-free sample onwards. */
  function FitDense(X: seq<seq<real>>, y: seq<real>, cols: Columns, root: real -> real,
                    inv: seq<seq<real>> -> Option<seq<seq<real>>>): (r: FitOutcome)
    requires |X| == |y| > 0 && Rect(X, 3)
    ensures r != NonFinite
    ensures r.Fitted? ==> && r.fit.columns == Predictors(cols) && r.fit.n == |y|
                          && r.fit.yMean == Average(y) && |r.fit.betaStd| == 3
                          && r.fit.xStd == StdDevs(X, 3, root)
    ensures r.Fitted? ==> r.fit.intercept == r.fit.yMean && r.fit.r2 <= 1.0
    ensures r.Fitted? && InvertsRight(inv) ==> 0.0 <= r.fit.r2
  {
    match Ols(ZScores(X, root), y, 3, inv)
    case None => Threw
    case Some(f) =>
      FitOfZScores(X, y, root, inv, f);
      Fitted(Fit(Predictors(cols), f.beta, f.intercept, |y|, f.r2, StdDevs(X, 3, root), Average(y)))
  }

  /**
   * `sanitizeAndFit(data, cols, segment)`. With no kept rows the mathjs column
   * mean throws; a predictor with no score among the kept rows leaves NaN in `X`.
   */
  function SanitizeAndFit(data: seq<Row>, cols: Columns, segment: string, score: Option<string> -> Option<real>,
                          root: real -> real, inv: seq<seq<real>> -> Option<seq<seq<real>>>): (r: FitOutcome)
    ensures r.Fitted? ==> |r.fit.betaStd| == 3 && |r.fit.xStd| == 3
    ensures r.Fitted? ==> r.fit.intercept == r.fit.yMean && r.fit.r2 <= 1.0
    ensures r.Fitted? && InvertsRight(inv) ==> 0.0 <= r.fit.r2
  {
    var s := Sanitize(data, cols, segment, score);
    if |s.y| == 0 then Threw
    else if !Dense(s.X) then NonFinite
    else FitDense(DenseValues(s.X), s.y, cols, root, inv)
  }

  /** What the analysis hands to the charts and the what-if panel. */
  datatype Results = Results(featureKeys: seq<string>, aws: Fit, lab: Fit, usageArr: seq<real>,
                             usageNorm: seq<real>, awsWeighted: seq<real>, labWeighted: seq<real>)

  /** `results`: no table yet, an error, NaN results, or the computed results. */
  datatype Analysis = NoData | Failed | NotFinite | Computed(results: Results)

  /** The shapes the what-if panel relies on: three coefficients, deviations and weights per segment. */
  predicate WellFormed(res: Results)
  {
    && |res.featureKeys| == 3 && |res.usageNorm| == 3
    && |res.aws.betaStd| == 3 && |res.aws.xStd| == 3
    && |res.lab.betaStd| == 3 && |res.lab.xStd| == 3
  }

  /** The `useMemo` of the page over the uploaded rows, the column roles and the usage figures. */
  function Analyze(rawRows: Option<seq<Row>>, cols: Columns, usage: map<string, real>,
                   score: Option<string> -> Option<real>, root: real -> real,
                   inv: seq<seq<real>> -> Option<seq<seq<real>>>): (a: Analysis)
    ensures a.Computed? ==> WellFormed(a.results)
    ensures a.Computed? ==> var res := a.results;
      && res.aws.intercept == res.aws.yMean && res.lab.intercept == res.lab.yMean
      && res.aws.r2 <= 1.0 && res.lab.r2 <= 1.0
      && (InvertsRight(inv) ==> 0.0 <= res.aws.r2 && 0.0 <= res.lab.r2)
  {
    match rawRows
    case None => NoData
    case Some(data) =>
      var aws := SanitizeAndFit(data, cols, AwsSegment, score, root, inv);
      var lab := SanitizeAndFit(data, cols, LabLabel, score, root, inv);
      if aws.Threw? || lab.Threw? then Failed
      else if aws.NonFinite? || lab.NonFinite? then NotFinite
      else
        var keys := Predictors(cols);
        var usageArr := UsageArr(keys, usage);
        var usageNorm := UsageNorm(usageArr);
        Computed(Results(keys, aws.fit, lab.fit, usageArr, usageNorm,
                         Weighted(aws.fit.betaStd, usageNorm), Weighted(lab.fit.betaStd, usageNorm)))
  }

  /**
   * The what-if panel: the AWS and the Lab projection for the three deltas. With
   * no improvement each projection is its segment's current mean and its
   * calibration; otherwise the estimated CSAT moves by the slope times the change
   * of the mean.
   */
  function WhatIfPanel(res: Results, deltas: seq<real>): (r: (Projection, Projection))
    requires WellFormed(res) && |deltas| == 3
    ensures r.0.mean - res.aws.yMean == PredictedDelta(res.aws.betaStd, res.aws.xStd, deltas)
    ensures r.1.mean - res.lab.yMean == PredictedDelta(res.lab.betaStd, res.lab.xStd, deltas)
    ensures r.0.pct == AwsPercent(res.aws.yMean) + Slope * (r.0.mean - res.aws.yMean)
    ensures r.1.pct == LabPercent(res.lab.yMean) + Slope * (r.1.mean - res.lab.yMean)
    ensures deltas == [0.0, 0.0, 0.0] ==> && r.0 == Projection(res.aws.yMean, AwsPercent(res.aws.yMean))
                                          && r.1 == Projection(res.lab.yMean, LabPercent(res.lab.yMean))
  {
    (ProjectAws(res.aws.betaStd, res.aws.xStd, res.aws.yMean, deltas),
     ProjectLab(res.lab.betaStd, res.lab.xStd, res.lab.yMean, deltas))
  }

  /** `inv` returns, whenever it succeeds on a square matrix, a square right inverse of it. */
  ghost predicate InvertsRight(inv: seq<seq<real>> -> Option<seq<seq<real>>>)
  {
    forall G: seq<seq<real>> {:trigger inv(G)} ::
      Rect(G, |G|) && inv(G).Some? && |inv(G).value| == |G| && Rect(inv(G).value, |G|)
      ==> MatMul(G, inv(G).value, |G|) == Identity(|G|)
  }

  // ---------------------------------------------------------------- one segment

  /** The z-scores are centred: every standardised predictor sums to zero. */
  lemma ZScoresCentered(X: seq<seq<real>>, root: real -> real)
    requires |X| > 0 && Rect(X, 3)
    ensures Centered(ZScores(X, root), 3)
  {
    forall j | 0 <= j < 3
      ensures Sum(Col(ZScores(X, root), j)) == 0.0
    {
      StandardizedCentered(X, 3, root, j);
    }
  }

  /**
   * Because the z-scores are centred, the intercept of a fit on them is the mean
   * target, and with an exact inverse R² is not negative.
   */
  lemma FitOfZScores(X: seq<seq<real>>, y: seq<real>, root: real -> real,
                     inv: seq<seq<real>> -> Option<seq<seq<real>>>, f: OlsFit)
    requires |X| == |y| > 0 && Rect(X, 3)
    requires Ols(ZScores(X, root), y, 3, inv) == Some(f)
    ensures f.intercept == Average(y)
    ensures InvertsRight(inv) ==> 0.0 <= f.r2
  {
    var Z := ZScores(X, root);
    ZScoresCentered(X, root);
    CenteredIntercept(Z, y, 3, inv, f);
    if InvertsRight(inv) {
      var G := Gram(Z, 3);
      assert inv(G).Some?;
      R2Bounds(Z, y, 3, inv, inv(G).value);
    }
  }

  /**
   * Every deviation the fit reports is non-zero: a computed deviation of 0 was
   * replaced by 1, so it is never a divisor. A predictor that is the same in
   * every row would get 1 when the square root of 0 is 0, but with an exact
   * inverse such a predictor never reaches a fit (`ConstantPredictorThrows`).
   */
  lemma FitDeviations(X: seq<seq<real>>, y: seq<real>, cols: Columns, root: real -> real,
                      inv: seq<seq<real>> -> Option<seq<seq<real>>>, j: nat)
    requires |X| == |y| > 0 && Rect(X, 3) && j < 3
    requires FitDense(X, y, cols, root, inv).Fitted?
    ensures FitDense(X, y, cols, root, inv).fit.xStd[j] != 0.0
    ensures root(Variance(Col(X, j))) == 0.0 ==> FitDense(X, y, cols, root, inv).fit.xStd[j] == 1.0
    ensures root(0.0) == 0.0 && (forall i :: 0 <= i < |X| ==> X[i][j] == X[0][j])
            ==> FitDense(X, y, cols, root, inv).fit.xStd[j] == 1.0
  {
    var col := Col(X, j);
    if forall i :: 0 <= i < |X| ==> X[i][j] == X[0][j] {
      assert col == Constant(|X|, X[0][j]);
      AverageConstant(|X|, X[0][j]);
      VarianceZeroIffConstant(col);
    }
  }

  /**
   * A predictor that is the same in every kept row becomes a zero column of
   * z-scores, so `XᵀX` has a zero row and no right inverse: with an exact `inv`
   * the inversion throws and there is no fit. A one-row segment is such a case.
   */
  lemma ConstantPredictorThrows(X: seq<seq<real>>, y: seq<real>, cols: Columns, root: real -> real,
                                inv: seq<seq<real>> -> Option<seq<seq<real>>>, j: nat)
    requires |X| == |y| > 0 && Rect(X, 3) && j < 3
    requires forall i :: 0 <= i < |X| ==> X[i][j] == X[0][j]
    requires InvertsRight(inv)
    ensures FitDense(X, y, cols, root, inv) == Threw
  {
    var Z := ZScores(X, root);
    var col := Col(X, j);
    assert col == Constant(|X|, X[0][j]);
    AverageConstant(|X|, X[0][j]);
    VarianceZeroIffConstant(col);
    ConstantColumnVanishes(X, 3, root, j);
    var G := Gram(Z, 3);
    GramZeroRow(Z, 3, j);
    match inv(G)
    case None =>
    case Some(M) =>
      if |M| == 3 && Rect(M, 3) {
        ZeroRowSingular(G, M, 3, j);
      }
  }

  /** A zero column of the data gives a zero row of its Gram matrix. */
  lemma GramZeroRow(Z: seq<seq<real>>, p: nat, j: nat)
    requires Rect(Z, p) && j < p
    requires Col(Z, j) == Constant(|Z|, 0.0)
    ensures Gram(Z, p)[j] == Constant(p, 0.0)
  {
    forall k | 0 <= k < p
      ensures Gram(Z, p)[j][k] == 0.0
    {
      assert Gram(Z, p)[j][k] == Dot(Transpose(Z, p)[j], Col(Z, k));
      DotConstantLeft(0.0, Col(Z, k));
    }
  }

  /** A square matrix with a zero row has no right inverse. */
  lemma ZeroRowSingular(G: seq<seq<real>>, M: seq<seq<real>>, p: nat, j: nat)
    requires |G| == |M| == p && Rect(G, p) && Rect(M, p) && j < p
    requires G[j] == Constant(p, 0.0)
    ensures MatMul(G, M, p) != Identity(p)
  {
    assert MatMul(G, M, p)[j][j] == Dot(G[j], Col(M, j));
    DotConstantLeft(0.0, Col(M, j));
    assert Identity(p)[j][j] == 1.0;
  }

  /** The sample of the kept rows scored by the target column is the sample's target. */
  lemma KeptTargets(data: seq<Row>, cols: Columns, segment: string, score: Option<string> -> Option<real>)
    ensures ScoreColumn(KeptRows(data, cols, segment, score), cols.overall, score)
         == Lift(Sanitize(data, cols, segment, score).y)
  {
    SanitizeKept(data, cols, segment, score);
  }

  /**
   * How a segment's fit ends: with no kept rows it throws; with kept rows but a
   * predictor that none of them answered it is NaN; otherwise it is a fit (or
   * the inversion throws) over `n` kept rows whose mean target is `yMean`.
   */
  lemma SegmentOutcome(data: seq<Row>, cols: Columns, segment: string, score: Option<string> -> Option<real>,
                       root: real -> real, inv: seq<seq<real>> -> Option<seq<seq<real>>>)
    ensures var r, kept := SanitizeAndFit(data, cols, segment, score, root, inv), KeptRows(data, cols, segment, score);
      && (|kept| == 0 ==> r == Threw)
      && (r == NonFinite <==>
            |kept| > 0 && exists j :: 0 <= j < 3 && !AnyPresent(KeptColumn(data, cols, segment, score, j)))
      && (r.Fitted? ==> && r.fit.n == |kept| > 0 && r.fit.columns == Predictors(cols)
                        && Mean(ScoreColumn(kept, cols.overall, score)) == Some(r.fit.yMean))
  {
    var s := Sanitize(data, cols, segment, score);
    SanitizeKept(data, cols, segment, score);
    SanitizeDense(data, cols, segment, score);
    if |s.y| > 0 {
      KeptTargets(data, cols, segment, score);
      MeanOfDense(s.y);
    }
  }

  // ---------------------------------------------------------------- the page

  /**
   * The page's outcomes: nothing before an upload; an error as soon as either
   * segment throws; NaN results when neither throws but one has NaN; otherwise
   * the two fits, in the segment order AWS then Lab, over the fixed feature keys.
   */
  lemma AnalysisOutcome(rawRows: Option<seq<Row>>, cols: Columns, usage: map<string, real>,
                        score: Option<string> -> Option<real>, root: real -> real,
                        inv: seq<seq<real>> -> Option<seq<seq<real>>>)
    ensures var a := Analyze(rawRows, cols, usage, score, root, inv);
      && (a.NoData? <==> rawRows.None?)
      && (rawRows.Some? ==>
            var aws := SanitizeAndFit(rawRows.value, cols, AwsSegment, score, root, inv);
            var lab := SanitizeAndFit(rawRows.value, cols, LabLabel, score, root, inv);
            && (a.Failed? <==> aws.Threw? || lab.Threw?)
            && (a.Computed? <==> aws.Fitted? && lab.Fitted?)
            && (a.Computed? ==> a.results.aws == aws.fit && a.results.lab == lab.fit
                                && a.results.featureKeys == [cols.search, cols.exportFeature, cols.change]))
  {
  }

  /**
   * With no negative usage figures, the usage shares lie in [0, 1] and each
   * segment's weights are shares of its usage-weighted impact: in [0, 1] and
   * summing to 1, or all 0 when no feature has both a coefficient and usage.
   */
  lemma AnalysisWeights(rawRows: Option<seq<Row>>, cols: Columns, usage: map<string, real>,
                        score: Option<string> -> Option<real>, root: real -> real,
                        inv: seq<seq<real>> -> Option<seq<seq<real>>>)
    requires forall k :: k in usage ==> 0.0 <= usage[k]
    ensures var a := Analyze(rawRows, cols, usage, score, root, inv);
      a.Computed? ==> var res := a.results;
      && (forall i :: 0 <= i < 3 ==> 0.0 <= res.usageNorm[i] <= 1.0)
      && (forall i :: 0 <= i < 3 ==> 0.0 <= res.awsWeighted[i] <= 1.0 && 0.0 <= res.labWeighted[i] <= 1.0)
      && (Sum(res.awsWeighted) == 1.0 || res.awsWeighted == [0.0, 0.0, 0.0])
      && (Sum(res.labWeighted) == 1.0 || res.labWeighted == [0.0, 0.0, 0.0])
  {
    if Analyze(rawRows, cols, usage, score, root, inv).Computed? {
      AnalysisWeightsComputed(rawRows, cols, usage, score, root, inv);
    }
  }

  lemma AnalysisWeightsComputed(rawRows: Option<seq<Row>>, cols: Columns, usage: map<string, real>,
                                score: Option<string> -> Option<real>, root: real -> real,
                                inv: seq<seq<real>> -> Option<seq<seq<real>>>)
    requires forall k :: k in usage ==> 0.0 <= usage[k]
    requires Analyze(rawRows, cols, usage, score, root, inv).Computed?
    ensures var res := Analyze(rawRows, cols, usage, score, root, inv).results;
      && (forall i :: 0 <= i < 3 ==> 0.0 <= res.usageNorm[i] <= 1.0)
      && (forall i :: 0 <= i < 3 ==> 0.0 <= res.awsWeighted[i] <= 1.0 && 0.0 <= res.labWeighted[i] <= 1.0)
      && (Sum(res.awsWeighted) == 1.0 || res.awsWeighted == [0.0, 0.0, 0.0])
      && (Sum(res.labWeighted) == 1.0 || res.labWeighted == [0.0, 0.0, 0.0])
  {
    var res := Analyze(rawRows, cols, usage, score, root, inv).results;
    assert && res.usageArr == UsageArr(Predictors(cols), usage)
           && res.usageNorm == UsageNorm(res.usageArr)
           && res.awsWeighted == Weighted(res.aws.betaStd, res.usageNorm)
           && res.labWeighted == Weighted(res.lab.betaStd, res.usageNorm);
    assert NonNegative(res.usageArr) by {
      forall i | 0 <= i < 3
        ensures 0.0 <= res.usageArr[i]
      {
        UsageLookup(Predictors(cols), usage, i);
      }
    }
    UsageShares(res.usageArr, res.aws.betaStd, res.lab.betaStd);
  }

  /** The weights of both segments from usage figures without negative entries. */
  lemma UsageShares(usageArr: seq<real>, awsBeta: seq<real>, labBeta: seq<real>)
    requires |usageArr| == |awsBeta| == |labBeta| == 3 && NonNegative(usageArr)
    ensures var un := UsageNorm(usageArr);
      var wa, wl := Weighted(awsBeta, un), Weighted(labBeta, un);
      && (forall i :: 0 <= i < 3 ==> 0.0 <= un[i] <= 1.0)
      && (forall i :: 0 <= i < 3 ==> 0.0 <= wa[i] <= 1.0 && 0.0 <= wl[i] <= 1.0)
      && (Sum(wa) == 1.0 || wa == [0.0, 0.0, 0.0])
      && (Sum(wl) == 1.0 || wl == [0.0, 0.0, 0.0])
  {
    var un := UsageNorm(usageArr);
    assert Constant(3, 0.0) == [0.0, 0.0, 0.0];
    WeightsAreShares(awsBeta, un);
    WeightsAreShares(labBeta, un);
  }

  /**
   * The panel is linear in the deltas: the change of each projected mean for two
   * sets of improvements together is the sum of the changes for each.
   */
  lemma WhatIfLinear(res: Results, d1: seq<real>, d2: seq<real>)
    requires WellFormed(res) && |d1| == |d2| == 3
    ensures var both, r1, r2 := WhatIfPanel(res, Plus(d1, d2)), WhatIfPanel(res, d1), WhatIfPanel(res, d2);
      && both.0.mean - res.aws.yMean == (r1.0.mean - res.aws.yMean) + (r2.0.mean - res.aws.yMean)
      && both.1.mean - res.lab.yMean == (r1.1.mean - res.lab.yMean) + (r2.1.mean - res.lab.yMean)
  {
    PredictedDeltaAdditive(res.aws.betaStd, res.aws.xStd, d1, d2);
    PredictedDeltaAdditive(res.lab.betaStd, res.lab.xStd, d1, d2);
  }
}
