# CSAT feature-importance pipeline, modelled in Dafny

This project models the numerical core of the CSAT Feature Importance Analyzer
page (`app/csat/page.tsx`). The page takes a survey table and splits its rows
into the "Lab" segment and the "AWS" segment (every other group value). It
scores the answers, fits an ordinary least-squares regression of overall
satisfaction on the three feature experiences (search, export, change
management), weights the standardised coefficients by feature usage, and
projects a CSAT percentage for what-if improvements.

The model is pure: values, functions and lemmas, one module per stage.

| module | file | stage of the page |
|---|---|---|
| `Wrappers` | wrappers.dfy | `Option` (JavaScript's `null`/`undefined`/NaN) |
| `Algebra` | algebra.dfy | sums, averages, dot products, transpose, matrix products |
| `ScoreMapper` | score_mapper.dfy | `SCORE_MAP`, `String.prototype.trim`, `mapScore` |
| `Stats` | stats.dfy | `mean` |
| `Masks` | masks.dfy | `Array.prototype.filter` with a boolean mask |
| `Segmenter` | segmenter.dfy | segment filter, keep mask and mean imputation of `sanitizeAndFit` |
| `Standardizer` | standardizer.dfy | column means, guarded population deviations, z-scores |
| `LeastSquares` | ols.dfy | `ols`: normal equations, intercept, R² |
| `Importance` | importance.dfy | `normalize`, the usage lookup, `Math.max(...usageArr, 1)`, the weights |
| `WhatIf` | whatif.dfy | `predictedDelta` and the linear CSAT calibration |
| `Csat` | csat.dfy | `sanitizeAndFit` end to end, the page's `useMemo`, the what-if panel |

Numbers are exact reals. Three library routines are parameters of the model:

- `parse`: JavaScript's `Number(t)` on a non-empty trimmed cell, restricted to finite results.
- `root`: the square root inside `math.std`.
- `inv`: `math.inv`. It returns `None` when the matrix is singular and mathjs throws.

The scorer that `sanitizeAndFit` applies to every cell is a parameter `score` of
`Segmenter` and `Csat` as well. `Segmenter.AsWritten(parse)` is `mapScore` as the
page has it; `Segmenter.Corrected(parse)` is the corrected scorer of the
finding below. Every property of `Segmenter` and `Csat` holds for any scorer,
so for both.

What the proofs rest on is stated as hypotheses on these parameters. For
example, `Csat.InvertsRight` says that `inv` returns a right inverse.

## Model

| member | source | states |
|---|---|---|
| ScoreMapper.TrimSlice | app/csat/page.tsx:38 | `trim` returns a contiguous slice of the cell with only white space cut from each end |
| ScoreMapper.TrimEnds | app/csat/page.tsx:38 | the trimmed text is no longer than the cell and neither begins nor ends with white space |
| ScoreMapper.TrimEmptyIffBlank | app/csat/page.tsx:38 | a cell trims to "" exactly when it is all white space |
| ScoreMapper.TrimIdempotent | app/csat/page.tsx:38 | trimming twice is trimming once |
| ScoreMapper.MapScoreAsWritten | app/csat/page.tsx:36-46 | as written: an undefined cell and the N/A label score as absent, and every score is 1..5 or the numeric value of the trimmed cell |
| ScoreMapper.MapScore | app/csat/page.tsx:36-46 | corrected: an undefined or blank cell is absent, and every other cell scores exactly as the source scores it |
| ScoreMapper.AbsentCells | app/csat/page.tsx:33-37 | in the corrected `mapScore`, an undefined cell and the "F. N/A" label score as absent |
| ScoreMapper.LabelsAgreeWithLetters | app/csat/page.tsx:27-43 | each scored label's value is the value of its leading letter, and only the N/A label has no letter in A..E |
| ScoreMapper.LetterDecides | app/csat/page.tsx:40-43 | in the corrected `mapScore`, a trimmed cell that starts with a, b, c, d or e (either case) scores that letter's value, whatever follows it |
| ScoreMapper.ScoreSources | app/csat/page.tsx:36-46 | in the corrected `mapScore`, every score is 1..5 or comes from the numeric parse of a non-empty cell that is neither a label nor starts with a letter A..E |
| ScoreMapper.NumericCellParses | app/csat/page.tsx:40-45 | a non-blank trimmed cell that is neither a label nor starts with A..E scores its numeric parse, and is absent when the parse fails, both as written and corrected |
| ScoreMapper.ScoreIgnoresPadding | app/csat/page.tsx:38 | in the corrected `mapScore`, surrounding white space never changes a score |
| ScoreMapper.BlankCellScoresZeroAsWritten | app/csat/page.tsx:44-45 | as written, an empty or all-space cell scores 0 |
| ScoreMapper.ZeroOnlyFromNumber | app/csat/page.tsx:44-45 | in the corrected `mapScore`, a score of 0 only comes from a non-blank cell that parses as 0 |
| Stats.Present | app/csat/page.tsx:49 | the filter keeps the present values, in order: the k-th value kept is the value at the k-th present position, and there is one per present entry |
| Stats.Mean | app/csat/page.tsx:48-51 | `mean` is NaN exactly when no entry is present |
| Stats.PresentOfLift | app/csat/page.tsx:49 | filtering a list without gaps gives the list back |
| Stats.MeanOfDense | app/csat/page.tsx:48-51 | on a list without gaps, `mean` is the arithmetic average |
| Stats.MeanBetween | app/csat/page.tsx:48-51 | a mean lies between the smallest and the largest present value |
| Stats.MeanBounded | app/csat/page.tsx:48-51 | if every present value is in [lo, hi], so is the mean |
| Masks.PickAt | app/csat/page.tsx:77-78 | the k-th element of a masked filter is the element at the k-th kept position |
| Masks.KeptAtIncreasing | app/csat/page.tsx:77-78 | the filter keeps the original order |
| Masks.KeptAtOnto | app/csat/page.tsx:77-78 | every kept position appears in the filtered list |
| Masks.CountNegate | app/csat/page.tsx:71 | a filter and its complement together keep every position once |
| Masks.PickWeave | app/csat/page.tsx:71 | merging a filter with its complement by the mask gives back the list |
| Masks.PickMultiset | app/csat/page.tsx:71 | a filter and its complement partition the list's multiset |
| Segmenter.Sanitize | app/csat/page.tsx:69-80 | one target and one three-cell predictor row per kept row (contents in `Segmenter.SanitizeKept`) |
| Segmenter.SegmentMembers | app/csat/page.tsx:70-71 | every row of a segment belongs to it: Lab rows carry "Lab", the other segment's rows do not |
| Segmenter.SegmentsPartition | app/csat/page.tsx:70-71 | the Lab and AWS segments partition the table: no row lost or duplicated, and merging them back restores the order |
| Segmenter.PickScoreColumn | app/csat/page.tsx:72-78 | scoring a column and then filtering is filtering the rows and then scoring |
| Segmenter.PickedTargetsPresent | app/csat/page.tsx:76-77 | every kept target is present |
| Segmenter.KeepMaskIsUsable | app/csat/page.tsx:76 | a row is kept exactly when its target and at least one predictor have a score |
| Segmenter.SanitizeCells | app/csat/page.tsx:77-80 | each imputed cell is the kept row's score, or its column's mean when absent |
| Segmenter.SanitizeKept | app/csat/page.tsx:71-80 | the sample has one target and one three-cell row per kept row; the kept rows are the usable rows of the segment; targets and present cells are those rows' scores |
| Segmenter.ImputedDense | app/csat/page.tsx:79-80 | imputation leaves no NaN exactly when every predictor column has a score somewhere |
| Segmenter.SanitizeDense | app/csat/page.tsx:76-80 | the imputed matrix is free of NaN exactly when there are no kept rows or each predictor is scored in some kept row |
| Segmenter.SkippedTargetKeptAsWritten | app/csat/page.tsx:44-45 | a non-Lab row with a blank overall cell and features A, B, C enters the AWS sample as target 0 with predictors 5, 4, 3 as written, and is dropped when a blank cell is absent |
| Segmenter.OneRowSample | app/csat/page.tsx:69-80 | a one-row segment whose three predictors are scored gives the empty sample when its target is absent, and otherwise exactly that target and those three scores |
| Standardizer.Guard | app/csat/page.tsx:82 | the zero-deviation guards of `sanitizeAndFit` and `predictedDelta` never give a zero divisor and keep every non-zero deviation |
| Standardizer.StdDevs | app/csat/page.tsx:82 | there is one deviation per column, and none is zero |
| Standardizer.VarianceNonNegative | app/csat/page.tsx:82 | the population variance is never negative |
| Standardizer.VarianceZeroIffConstant | app/csat/page.tsx:82 | the variance is 0 exactly when the column is constant |
| Standardizer.StandardizedColumn | app/csat/page.tsx:83 | each z-score column is its column shifted by the mean and scaled by 1/deviation |
| Standardizer.StandardizedCentered | app/csat/page.tsx:81-83 | every z-score column sums to 0 |
| Standardizer.StandardizeInverts | app/csat/page.tsx:83 | `mean + sd·z` recovers every original cell |
| Standardizer.ConstantColumnVanishes | app/csat/page.tsx:82-83 | a constant predictor becomes all zeros after standardisation |
| Standardizer.UnitVariance | app/csat/page.tsx:82-83 | a non-constant predictor has variance 1 after standardisation, given an exact square root |
| LeastSquares.Ols | app/csat/page.tsx:53-67 | `ols` fails exactly when `inv` throws; otherwise it returns one coefficient per predictor and R² ≤ 1 |
| LeastSquares.TotalSSZeroIffConstant | app/csat/page.tsx:64 | the total sum of squares is 0 exactly when the target is constant |
| LeastSquares.ConstantTargetScoresZero | app/csat/page.tsx:64-65 | a constant target is scored R² = 0 |
| LeastSquares.NormalEquations | app/csat/page.tsx:54-58 | when `inv` gives a right inverse, the coefficients solve the normal equations XᵀXβ = Xᵀy |
| LeastSquares.CenteredIntercept | app/csat/page.tsx:59-61 | with centred predictors the intercept is the target's mean |
| LeastSquares.ResidualsOrthogonal | app/csat/page.tsx:62-63 | at a solution of the normal equations, the residuals are orthogonal to the fitted part |
| LeastSquares.FitDecomposition | app/csat/page.tsx:62-64 | SStot = Σ(fitted part)² + SSres |
| LeastSquares.R2Bounds | app/csat/page.tsx:53-66 | with centred predictors and a right inverse, `ols` succeeds, the intercept is mean(y), 0 ≤ R² ≤ 1, and R² is the explained share of SStot |
| LeastSquares.CenteredPredictionsSum | app/csat/page.tsx:62 | with centred predictors the fitted part sums to 0 |
| LeastSquares.PerfectFit | app/csat/page.tsx:53-66 | an exactly linear target is recovered: the fit returns its coefficients and constant, with R² = 1 (0 if constant) |
| LeastSquares.ExactCoefficients | app/csat/page.tsx:54-58 | a left inverse recovers the true coefficients of an exactly linear target |
| LeastSquares.NoResidual | app/csat/page.tsx:62-63 | the true coefficients leave no residual |
| Importance.Normalize | app/csat/page.tsx:88 | normalised entries sum to 1 when the total is non-zero, and are all 0 when it is 0 |
| Importance.NormalizeBounds | app/csat/page.tsx:88 | normalising non-negative entries gives shares in [0, 1] |
| Importance.NormalizeMonotone | app/csat/page.tsx:88 | with a positive total, normalising keeps the order of the entries |
| Importance.NormalizeScaleInvariant | app/csat/page.tsx:88 | scaling every entry by a non-zero factor leaves the shares unchanged |
| Importance.NormalizeIdempotent | app/csat/page.tsx:88 | normalising twice is normalising once |
| Importance.UsageLookup | app/csat/page.tsx:154 | a feature without recorded usage counts 0; a recorded one counts its usage |
| Importance.MaxUsage | app/csat/page.tsx:155 | `Math.max(...usageArr, 1)` is at least 1 and at least every usage, and is 1 or one of the usages |
| Importance.UsageNorm | app/csat/page.tsx:155-156 | non-negative usages become shares in [0, 1], and the largest usage, when it is at least 1, gets exactly 1 |
| Importance.SmallUsageUnscaled | app/csat/page.tsx:155-156 | when every usage is at most 1 the shares are the usages themselves |
| Importance.Weighted | app/csat/page.tsx:157-158 | a feature with a zero coefficient or zero usage weighs 0 |
| Importance.WeightsAreShares | app/csat/page.tsx:157-158 | the weights are in [0, 1] and sum to 1, or are all 0 exactly because every feature has a zero coefficient or zero usage |
| Importance.WeightsScaleInvariant | app/csat/page.tsx:157-158 | the weights depend on the coefficients' sizes only: scaling them by any non-zero factor, sign included, changes nothing |
| WhatIf.PredictedDelta | app/csat/page.tsx:91 | zero deltas predict no change |
| WhatIf.PredictedDeltaAdditive | app/csat/page.tsx:91 | predicted changes add up over combined deltas |
| WhatIf.PredictedDeltaHomogeneous | app/csat/page.tsx:91 | scaling the deltas scales the predicted change |
| WhatIf.SingleFeature | app/csat/page.tsx:91 | moving one feature by t points changes the mean by its coefficient times t over its guarded deviation |
| WhatIf.PredictionChange | app/csat/page.tsx:91 | `predictedDelta` is exactly the change of the fitted model's prediction when a respondent's scores move by the deltas |
| WhatIf.AwsPercent | app/csat/page.tsx:105-107 | the AWS percentage lies on the line through (3.746, 60.2%) with slope (0.816 − 0.602)/(4.038 − 3.746) |
| WhatIf.LabPercent | app/csat/page.tsx:105-108 | the Lab percentage lies on the line through (4.038, 81.6%) with the same slope |
| WhatIf.CalibrationAnchors | app/csat/page.tsx:105-108 | both calibration lines run through (3.746, 60.2%) and (4.038, 81.6%) |
| WhatIf.SameCalibration | app/csat/page.tsx:105-108 | the AWS and Lab calibrations are the same line |
| WhatIf.CalibrationIncreasing | app/csat/page.tsx:105-108 | a higher projected mean gives a higher percentage |
| WhatIf.ProjectAws | app/csat/page.tsx:99-107 | the AWS projection moves the mean by `predictedDelta` and the percentage by the slope times that change; zero deltas give the baseline and its percentage |
| WhatIf.ProjectLab | app/csat/page.tsx:100-108 | the Lab projection moves the mean by `predictedDelta` and the percentage by the slope times that change; zero deltas give the baseline and its percentage |
| Csat.DenseValues | app/csat/page.tsx:80 | a matrix without NaN cells reads as numbers, cell for cell |
| Csat.ZScoresCentered | app/csat/page.tsx:81-83 | `Xz` has centred columns |
| Csat.FitDense | app/csat/page.tsx:81-85 | a fit on a NaN-free sample never yields NaN; its intercept is its y_mean (the sample's mean target), R² ≤ 1, and R² ≥ 0 when `inv` inverts; columns, n and xStd are those of the sample |
| Csat.FitDeviations | app/csat/page.tsx:82 | each reported deviation is non-zero: a computed deviation of 0 is replaced by 1, so no deviation is ever a divisor; with an exact inverse a predictor that is the same in every row never reaches a fit (see `Csat.ConstantPredictorThrows`), so the constant-predictor clause speaks only of inexact inverses |
| Csat.ConstantPredictorThrows | app/csat/page.tsx:56-85 | with an exact inverse, a predictor that has the same score in every kept row (for instance in a one-row segment) makes the fit throw: its z-scores are all 0, so XᵀX has a zero row and no inverse |
| Csat.SanitizeAndFit | app/csat/page.tsx:69-86 | a segment's fit has three coefficients and deviations, intercept = y_mean and R² ≤ 1, and R² ≥ 0 when `inv` inverts |
| Csat.KeptTargets | app/csat/page.tsx:72-77 | the reported targets are the kept rows' overall scores |
| Csat.SegmentOutcome | app/csat/page.tsx:69-86 | no kept rows throws; NaN exactly when some predictor is unscored in all kept rows; a fit reports n = kept rows, the three columns and y_mean = mean of the kept scores |
| Csat.Analyze | app/csat/page.tsx:148-161 | computed results have three keys, coefficients, deviations and usage shares; both fits have intercept = y_mean and R² ≤ 1, and R² ≥ 0 when `inv` inverts |
| Csat.AnalysisOutcome | app/csat/page.tsx:148-161 | no table gives no results; an exception in either segment gives the error; results hold both segments' fits and the three feature keys |
| Csat.AnalysisWeights | app/csat/page.tsx:154-158 | with non-negative usage, usage shares and weights are in [0, 1], and each segment's weights sum to 1 or are all 0 |
| Csat.UsageShares | app/csat/page.tsx:155-158 | the same bounds for any three non-negative usages and coefficient vectors |
| Csat.WhatIfPanel | app/csat/page.tsx:93-108 | each projection moves its segment's mean by `predictedDelta` and its percentage by the slope times that change; with all sliders at 0 the panel shows each segment's own mean and its percentage |
| Csat.WhatIfLinear | app/csat/page.tsx:98-101 | the panel's projected changes add up over combined slider settings, in both segments |

## Left out

- The user interface is not modelled: React state, JSX, cards, tabs, sliders, the charts (recharts), PDF and image export (jspdf, html-to-image), and the error banner's text.
- CSV upload and parsing (`Papa.parse`) are left out. The model starts from the parsed rows, each a map from header to cell text.
- Column roles are a parameter (`Segmenter.Columns`). The default usage figures are data, not logic, so they are not modelled; the default headers appear only as `Segmenter.DefaultColumns`, to show that they name five different columns.
- Floating point is not modelled: numbers are exact reals, and sums are taken in their mathematical value, not in the fold order of `reduce`.
- `toPcnt` and `toFixed` only format numbers for display, so they are not modelled.
- `math.inv` is the parameter `inv`. Its failure is `None`, modelled as the exception it throws. An answer of the wrong shape is treated the same way.
- `math.std`'s square root is the parameter `root`. Unit variance after standardisation (`Standardizer.UnitVariance`) holds only when `root` is exact.
- `Number(t)` is the parameter `parse`, and only finite results are modelled. The one case of it that is fixed is the empty string, which gives 0. JavaScript's full numeric-literal grammar is not modelled.
- `toUpperCase` is ASCII only. No other character upper-cases to A..E.
- Csat.SanitizeAndFit: with no kept rows, mathjs throws on the empty matrix. This is modelled as `Threw`, the error the page reports.
- Csat.FitDeviations: the design treats a zero standard deviation as not an error, yet a predictor with one score across all kept rows (every one-row segment included) makes XᵀX singular, so `math.inv` throws and the page shows an error for both segments. The zero-deviation guard only keeps the divisor non-zero; the model follows the code, proves the throw in `Csat.ConstantPredictorThrows`, and does not model a fit that drops constant predictors.
- Csat.SanitizeAndFit: when a predictor has no score in any kept row, `X` holds NaN. The model stops there with `NonFinite`, and `Csat.Analyze` with `NotFinite`; it does not follow NaN through `inv`, the fit or the charts.
- Segmenter.Sanitize, Csat.SanitizeAndFit, Csat.Analyze: the scorer is a parameter rather than fixed to `mapScore`; the page's own behaviour is the instance `Segmenter.AsWritten(parse)`, and no property of these members depends on which scorer is passed.
- Segmenter.Sanitize: its own contract gives only the shape of the sample (one target and three cells per kept row); what the targets and cells are is stated by `Segmenter.SanitizeKept` and `Segmenter.SanitizeCells`.
- Csat.Analyze: usage figures are reals. A NaN or non-numeric usage value is not modelled.
- LeastSquares.R2Bounds: the lower bound on R² holds for centred predictors only, which is what the page fits. For uncentred data the model proves only R² ≤ 1 (the contract of `LeastSquares.Ols`).

## Findings

| source | as written | input that shows it | evidently intended | confidence | as-written member | corrected member |
|---|---|---|---|---|---|---|
| app/csat/page.tsx:44-45 | an empty or all-space cell trims to "", `Number("")` is 0, so `mapScore` scores it 0, the "extremely dissatisfied" end and below | a row whose "SEARCH experience" cell is "" (an unanswered question, as the CSV parser delivers it) | an unanswered question is absent, like `undefined` and the N/A label, and is neither kept as a score nor averaged in | high, not executed | ScoreMapper.BlankCellScoresZeroAsWritten | ScoreMapper.MapScore |

`ScoreMapper.MapScoreAsWritten` is `mapScore` as written and
`ScoreMapper.MapScore` the corrected scorer; `ScoreMapper.ZeroOnlyFromNumber`
is the intended property proved about the corrected one. Through the whole of
`sanitizeAndFit` the difference shows in `Segmenter.SkippedTargetKeptAsWritten`:
a respondent who skipped the overall question but rated the three features
enters the fit with satisfaction 0 as written, and is left out with the
corrected scorer.
