/**
 * The what-if panel of the page (app/csat/page.tsx): `predictedDelta`, which
 * turns improvements of the features (in their own points) into a change of the
 * mean score through the standardised coefficients, and the linear calibration
 * that maps a mean score to an estimated CSAT percentage. The calibration line
 * runs through two anchor points, (3.746, 60.2%) and (4.038, 81.6%); the AWS
 * projection is anchored at the first, the Lab projection at the second.
 */
module WhatIf {
  import opened Algebra
  import opened Standardizer

  /** Every feature's change in units of its standard deviation, `deltas[i] / (xStd[i] || 1)`. */
  function Rescaled(deltas: seq<real>, xStd: seq<real>): (r: seq<real>)
    requires |deltas| == |xStd|
    ensures |r| == |deltas|
  {
    seq(|deltas|, i requires 0 <= i < |deltas| => deltas[i] / Guard(xStd[i]))
  }

  /**
   * `predictedDelta(beta, xStd, deltas)`: `Σ b_i · (deltas[i] / (xStd[i] || 1))`,
   * folded from 0; no improvement gives no change.
   */
  function PredictedDelta(beta: seq<real>, xStd: seq<real>, deltas: seq<real>): (d: real)
    requires |beta| == |xStd| == |deltas|
    ensures (forall i :: 0 <= i < |deltas| ==> deltas[i] == 0.0) ==> d == 0.0
  {
    NoChangeNoDelta(beta, xStd, deltas);
    Dot(beta, Rescaled(deltas, xStd))
  }

  /** The sum behind `PredictedDelta`'s contract: no improvement, no change. */
  lemma NoChangeNoDelta(beta: seq<real>, xStd: seq<real>, deltas: seq<real>)
    requires |beta| == |xStd| == |deltas|
    ensures (forall i :: 0 <= i < |deltas| ==> deltas[i] == 0.0) ==> Dot(beta, Rescaled(deltas, xStd)) == 0.0
  {
    if forall i :: 0 <= i < |deltas| ==> deltas[i] == 0.0 {
      var r := Rescaled(deltas, xStd);
      assert r == Constant(|beta|, 0.0);
      DotSymmetric(beta, r);
      DotConstantLeft(0.0, beta);
    }
  }

  const LowMean: real := 3.746
  const LowPct: real := 0.602
  const HighMean: real := 4.038
  const HighPct: real := 0.816

  /** `(0.816 - 0.602) / (4.038 - 3.746)`, the slope shared by both projections. */
  const Slope: real := (HighPct - LowPct) / (HighMean - LowMean)

  /**
   * `awsPct = 0.602 + (awsY - 3.746) * awsSlope`: the point above `y` on the
   * line through the two anchors.
   */
  function AwsPercent(y: real): (p: real)
    ensures (p - LowPct) * (HighMean - LowMean) == (y - LowMean) * (HighPct - LowPct)
  {
    LowPct + (y - LowMean) * Slope
  }

  /**
   * `labPct = 0.816 + (labY - 4.038) * labSlope`: the point above `y` on the
   * line through the upper anchor with the shared slope.
   */
  function LabPercent(y: real): (p: real)
    ensures (p - HighPct) * (HighMean - LowMean) == (y - HighMean) * (HighPct - LowPct)
  {
    HighPct + (y - HighMean) * Slope
  }

  /** What the panel shows for one segment: the projected mean and its estimated CSAT. */
  datatype Projection = Projection(mean: real, pct: real)

  /** `awsY = y_mean + awsDy` and its percentage. */
  function ProjectAws(beta: seq<real>, xStd: seq<real>, yMean: real, deltas: seq<real>): (r: Projection)
    requires |beta| == |xStd| == |deltas|
    ensures r.mean - yMean == PredictedDelta(beta, xStd, deltas)
    ensures r.pct == AwsPercent(yMean) + Slope * PredictedDelta(beta, xStd, deltas)
    ensures (forall i :: 0 <= i < |deltas| ==> deltas[i] == 0.0) ==> r == Projection(yMean, AwsPercent(yMean))
  {
    var y := yMean + PredictedDelta(beta, xStd, deltas);
    Projection(y, AwsPercent(y))
  }

  /** `labY = y_mean + labDy` and its percentage. */
  function ProjectLab(beta: seq<real>, xStd: seq<real>, yMean: real, deltas: seq<real>): (r: Projection)
    requires |beta| == |xStd| == |deltas|
    ensures r.mean - yMean == PredictedDelta(beta, xStd, deltas)
    ensures r.pct == LabPercent(yMean) + Slope * PredictedDelta(beta, xStd, deltas)
    ensures (forall i :: 0 <= i < |deltas| ==> deltas[i] == 0.0) ==> r == Projection(yMean, LabPercent(yMean))
  {
    var y := yMean + PredictedDelta(beta, xStd, deltas);
    Projection(y, LabPercent(y))
  }

  // ---------------------------------------------------------------- predictedDelta

  /** Improvements add up: the change for two sets of deltas together is the sum of the changes. */
  lemma PredictedDeltaAdditive(beta: seq<real>, xStd: seq<real>, d1: seq<real>, d2: seq<real>)
    requires |beta| == |xStd| == |d1| == |d2|
    ensures PredictedDelta(beta, xStd, Plus(d1, d2))
         == PredictedDelta(beta, xStd, d1) + PredictedDelta(beta, xStd, d2)
  {
    var r1, r2 := Rescaled(d1, xStd), Rescaled(d2, xStd);
    assert Rescaled(Plus(d1, d2), xStd) == Plus(r1, r2) by {
      forall i | 0 <= i < |beta|
        ensures Rescaled(Plus(d1, d2), xStd)[i] == Plus(r1, r2)[i]
      {
        var a, b, g := d1[i], d2[i], Guard(xStd[i]);
        assert (a + b) / g == a / g + b / g;
      }
    }
    DotSymmetric(beta, Plus(r1, r2));
    DotPlusLeft(r1, r2, beta);
    DotSymmetric(r1, beta);
    DotSymmetric(r2, beta);
  }

  /** Scaling every improvement by `c` scales the change by `c`. */
  lemma PredictedDeltaHomogeneous(beta: seq<real>, xStd: seq<real>, c: real, d: seq<real>)
    requires |beta| == |xStd| == |d|
    ensures PredictedDelta(beta, xStd, Scale(c, d)) == c * PredictedDelta(beta, xStd, d)
  {
    var r := Rescaled(d, xStd);
    assert Rescaled(Scale(c, d), xStd) == Scale(c, r) by {
      forall i | 0 <= i < |beta|
        ensures Rescaled(Scale(c, d), xStd)[i] == Scale(c, r)[i]
      {
        var a, g := d[i], Guard(xStd[i]);
        assert (c * a) / g == c * (a / g);
      }
    }
    DotSymmetric(beta, Scale(c, r));
    DotScaleLeft(c, r, beta);
    DotSymmetric(r, beta);
  }

  /**
   * Improving one feature by `t` points changes the mean by its standardised
   * coefficient times `t` deviations of that feature.
   */
  lemma SingleFeature(beta: seq<real>, xStd: seq<real>, k: nat, t: real)
    requires |beta| == |xStd| && k < |beta|
    ensures PredictedDelta(beta, xStd, Scale(t, Identity(|beta|)[k])) == beta[k] * (t / Guard(xStd[k]))
  {
    var p := |beta|;
    var u := Scale(t / Guard(xStd[k]), Identity(p)[k]);
    RescaledUnit(xStd, k, t);
    DotSymmetric(beta, u);
    DotScaleLeft(t / Guard(xStd[k]), Identity(p)[k], beta);
    DotUnit(p, k, beta);
  }

  /** `t` points on feature `k` alone are `t / (xStd[k] || 1)` deviations of it. */
  lemma RescaledUnit(xStd: seq<real>, k: nat, t: real)
    requires k < |xStd|
    ensures Rescaled(Scale(t, Identity(|xStd|)[k]), xStd) == Scale(t / Guard(xStd[k]), Identity(|xStd|)[k])
  {
    var p := |xStd|;
    var r := Rescaled(Scale(t, Identity(p)[k]), xStd);
    var u := Scale(t / Guard(xStd[k]), Identity(p)[k]);
    forall i | 0 <= i < p
      ensures r[i] == u[i]
    {
      var g := Guard(xStd[i]);
      if i == k {
        assert r[i] == (t * 1.0) / g;
      } else {
        assert r[i] == (t * 0.0) / g;
      }
    }
  }

  /**
   * `predictedDelta` is exactly the change of the fitted model's prediction: for
   * a respondent `x` whose predictors are standardised by `means` and `sd`,
   * moving `x` by `d` moves `intercept + β · z` by `predictedDelta(β, sd, d)`.
   */
  lemma PredictionChange(beta: seq<real>, means: seq<real>, sd: seq<real>, intercept: real,
                         x: seq<real>, d: seq<real>)
    requires |beta| == |means| == |sd| == |x| == |d|
    requires forall j :: 0 <= j < |sd| ==> sd[j] != 0.0
    ensures var p := |beta|;
            (intercept + Dot(beta, Standardize([Plus(x, d)], p, means, sd)[0]))
            - (intercept + Dot(beta, Standardize([x], p, means, sd)[0]))
            == PredictedDelta(beta, sd, d)
  {
    var p := |beta|;
    var z1 := Standardize([Plus(x, d)], p, means, sd)[0];
    var z0 := Standardize([x], p, means, sd)[0];
    assert Minus(z1, z0) == Rescaled(d, sd) by {
      forall j | 0 <= j < p
        ensures Minus(z1, z0)[j] == Rescaled(d, sd)[j]
      {
        var a, b, m, s := x[j], d[j], means[j], sd[j];
        assert Guard(s) == s;
        assert (a + b - m) / s - (a - m) / s == b / s;
      }
    }
    DotMinusRight(beta, z1, z0);
  }

  // ---------------------------------------------------------------- calibration

  lemma SlopeValue()
    ensures Slope == 107.0 / 146.0
  {
  }

  /** Both projections pass through both anchors. */
  lemma CalibrationAnchors()
    ensures AwsPercent(LowMean) == LowPct && AwsPercent(HighMean) == HighPct
    ensures LabPercent(LowMean) == LowPct && LabPercent(HighMean) == HighPct
  {
    SlopeValue();
  }

  /**
   * The Lab projection reuses the AWS slope, and since both lines run through
   * the same two anchors, the two mappings are one and the same.
   */
  lemma SameCalibration(y: real)
    ensures AwsPercent(y) == LabPercent(y)
  {
    SlopeValue();
  }

  /** A higher projected mean always gives a higher estimated CSAT. */
  lemma CalibrationIncreasing(y1: real, y2: real)
    requires y1 < y2
    ensures AwsPercent(y1) < AwsPercent(y2)
    ensures LabPercent(y1) < LabPercent(y2)
  {
    SlopeValue();
  }
}
