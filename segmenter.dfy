/**
 * The first half of `sanitizeAndFit` (app/csat/page.tsx): the rows of one
 * segment, their scores column by column, the keep mask, and the mean
 * imputation of the three predictors over the kept rows.
 *
 * A row is a map from column header to raw cell; a header the row does not
 * have is an undefined cell. The scorer is a parameter: `AsWritten(parse)` is
 * `mapScore` as the source has it, `Corrected(parse)` the one that reads a
 * blank cell as absent.
 */
module Segmenter {
  import opened Wrappers
  import opened Stats
  import opened ScoreMapper
  import opened Masks

  type Row = map<string, string>

  /** The column roles: the target, the three predictors and the group column. */
  datatype Columns = Columns(overall: string, search: string, exportFeature: string, change: string, group: string)

  /** `mapScore` as written, with a blank cell scoring 0. */
  function AsWritten(parse: string -> Option<real>): Option<string> -> Option<real>
  {
    v => MapScoreAsWritten(v, parse)
  }

  /** `mapScore` with a blank cell absent. */
  function Corrected(parse: string -> Option<real>): Option<string> -> Option<real>
  {
    v => MapScore(v, parse)
  }

  /** The page's default column headers. */
  const DefaultColumns: Columns := Columns("Overall, how satisfied are you with Townsend?",
    "SEARCH experience", "EXPORT experience", "CHANGE MANAGEMENT experience", "Group")

  /** The sentinel group value of the Lab segment; every other value is AWS. */
  const LabLabel: string := "Lab"

  /** The predictor headers, in the fixed order search, export, change. */
  function Predictors(cols: Columns): (hs: seq<string>)
    ensures |hs| == 3
  {
    [cols.search, cols.exportFeature, cols.change]
  }

  /** `r[header]`: `None` is `undefined`. */
  function Cell(r: Row, header: string): Option<string>
  {
    if header in r then Some(r[header]) else None
  }

  predicate IsLabRow(r: Row, group: string)
  {
    Cell(r, group) == Some(LabLabel)
  }

  // ---------------------------------------------------------------- the segment filter

  /** Which rows `sanitizeAndFit` keeps for a segment: `isLab ? group === "Lab" : group !== "Lab"`. */
  function SegmentMask(data: seq<Row>, group: string, segment: string): (m: seq<bool>)
    ensures |m| == |data|
  {
    seq(|data|, i requires 0 <= i < |data| => IsLabRow(data[i], group) == (segment == LabLabel))
  }

  function SegmentRows(data: seq<Row>, group: string, segment: string): seq<Row>
  {
    Pick(data, SegmentMask(data, group, segment))
  }

  // ---------------------------------------------------------------- scores, keep mask, imputation

  /** `rows.map(r => mapScore(r[header]))`. */
  function ScoreColumn(rows: seq<Row>, header: string, score: Option<string> -> Option<real>): (col: seq<Option<real>>)
    ensures |col| == |rows|
  {
    seq(|rows|, i requires 0 <= i < |rows| => score(Cell(rows[i], header)))
  }

  /** `[x_search, x_export, x_change]`. */
  function PredictorColumns(rows: seq<Row>, cols: Columns, score: Option<string> -> Option<real>): (xs: seq<seq<Option<real>>>)
    ensures |xs| == 3 && forall j :: 0 <= j < 3 ==> |xs[j]| == |rows|
  {
    seq(3, j requires 0 <= j < 3 => ScoreColumn(rows, Predictors(cols)[j], score))
  }

  predicate AnyPresent(cells: seq<Option<real>>)
  {
    exists k :: 0 <= k < |cells| && cells[k].Some?
  }

  /** `keepMask`: the target is present and at least one predictor is. */
  function KeepMask(y: seq<Option<real>>, xs: seq<seq<Option<real>>>): (keep: seq<bool>)
    requires forall j :: 0 <= j < |xs| ==> |xs[j]| == |y|
    ensures |keep| == |y|
  {
    seq(|y|, i requires 0 <= i < |y| => y[i].Some? && AnyPresent(seq(|xs|, j requires 0 <= j < |xs| => xs[j][i])))
  }

  function Values(s: seq<Option<real>>): (v: seq<real>)
    requires forall k :: 0 <= k < |s| ==> s[k].Some?
    ensures |v| == |s|
  {
    seq(|s|, k requires 0 <= k < |s| => s[k].value)
  }

  /**
   * `X`: one row per kept row, one cell per predictor; an absent cell takes its
   * column's mean. A `None` mean (NaN) leaves a `None` cell.
   */
  function Impute(Xp: seq<seq<Option<real>>>, means: seq<Option<real>>, n: nat): (X: seq<seq<Option<real>>>)
    requires |means| == |Xp| && forall j :: 0 <= j < |Xp| ==> |Xp[j]| == n
    ensures |X| == n && forall r :: 0 <= r < n ==> |X[r]| == |Xp|
  {
    seq(n, r requires 0 <= r < n => seq(|Xp|, j requires 0 <= j < |Xp| => if Xp[j][r].None? then means[j] else Xp[j][r]))
  }

  /** Targets of the kept rows and their imputed predictor rows. */
  datatype Sample = Sample(y: seq<real>, X: seq<seq<Option<real>>>)

  /** The rows of `segment` that `sanitizeAndFit` keeps. */
  function KeptRows(data: seq<Row>, cols: Columns, segment: string, score: Option<string> -> Option<real>): seq<Row>
  {
    var rows := SegmentRows(data, cols.group, segment);
    Pick(rows, KeepMask(ScoreColumn(rows, cols.overall, score), PredictorColumns(rows, cols, score)))
  }

  /** `sanitizeAndFit` up to and including the imputation of `X`. */
  function Sanitize(data: seq<Row>, cols: Columns, segment: string, score: Option<string> -> Option<real>): (s: Sample)
    ensures |s.X| == |s.y| && forall r :: 0 <= r < |s.X| ==> |s.X[r]| == 3
  {
    var rows := SegmentRows(data, cols.group, segment);
    var yRaw := ScoreColumn(rows, cols.overall, score);
    var xs := PredictorColumns(rows, cols, score);
    var keep := KeepMask(yRaw, xs);
    PickedTargetsPresent(yRaw, xs);
    var y := Values(Pick(yRaw, keep));
    var Xp := seq(3, j requires 0 <= j < 3 => Pick(xs[j], keep));
    var means := seq(3, j requires 0 <= j < 3 => Mean(Xp[j]));
    Sample(y, Impute(Xp, means, |y|))
  }

  /** Every cell of the imputed matrix is a number (no NaN). */
  predicate Dense(X: seq<seq<Option<real>>>)
  {
    forall r, j :: 0 <= r < |X| && 0 <= j < |X[r]| ==> X[r][j].Some?
  }

  /** A row enters the fit: its target is present and at least one predictor is. */
  predicate Usable(r: Row, cols: Columns, score: Option<string> -> Option<real>)
  {
    score(Cell(r, cols.overall)).Some?
    && exists j :: 0 <= j < 3 && score(Cell(r, Predictors(cols)[j])).Some?
  }

  /** Filtering the rows and then scoring a column is scoring and then filtering. */
  lemma {:induction false} PickScoreColumn(rows: seq<Row>, keep: seq<bool>, header: string, score: Option<string> -> Option<real>)
    requires |rows| == |keep|
    ensures Pick(ScoreColumn(rows, header, score), keep) == ScoreColumn(Pick(rows, keep), header, score)
    decreases |rows|
  {
    if |rows| > 0 {
      var n := |rows| - 1;
      assert ScoreColumn(rows, header, score)[..n] == ScoreColumn(rows[..n], header, score);
      PickScoreColumn(rows[..n], keep[..n], header, score);
    }
  }

  lemma PickedTargetsPresent(y: seq<Option<real>>, xs: seq<seq<Option<real>>>)
    requires forall j :: 0 <= j < |xs| ==> |xs[j]| == |y|
    ensures forall k :: 0 <= k < Count(KeepMask(y, xs)) ==> Pick(y, KeepMask(y, xs))[k].Some?
  {
    forall k | 0 <= k < Count(KeepMask(y, xs))
      ensures Pick(y, KeepMask(y, xs))[k].Some?
    {
      PickAt(y, KeepMask(y, xs), k);
    }
  }

  // ---------------------------------------------------------------- segments

  /** Every row of a segment belongs to it: a Lab row in the Lab segment, a non-Lab row in any other. */
  lemma SegmentMembers(data: seq<Row>, group: string, segment: string)
    ensures forall r :: r in SegmentRows(data, group, segment) ==> IsLabRow(r, group) == (segment == LabLabel)
  {
    var m := SegmentMask(data, group, segment);
    var rows := Pick(data, m);
    forall r | r in rows
      ensures IsLabRow(r, group) == (segment == LabLabel)
    {
      var k :| 0 <= k < |rows| && rows[k] == r;
      PickAt(data, m, k);
    }
  }

  /**
   * The Lab and AWS filters partition the rows: Lab rows carry the group value
   * "Lab", AWS rows do not, no row is lost or duplicated, and merging the two
   * segments back by group gives the original rows in their original order.
   */
  lemma SegmentsPartition(data: seq<Row>, group: string, other: string)
    requires other != LabLabel
    ensures var lab, aws := SegmentRows(data, group, LabLabel), SegmentRows(data, group, other);
      && (forall r :: r in lab ==> IsLabRow(r, group))
      && (forall r :: r in aws ==> !IsLabRow(r, group))
      && |lab| + |aws| == |data|
      && multiset(lab) + multiset(aws) == multiset(data)
      && Weave(SegmentMask(data, group, LabLabel), lab, aws) == data
  {
    var m := SegmentMask(data, group, LabLabel);
    assert SegmentMask(data, group, other) == Negate(m);
    var lab, aws := Pick(data, m), Pick(data, Negate(m));
    assert |lab| + |aws| == |data| && Weave(m, lab, aws) == data by {
      PickWeave(data, m);
    }
    assert multiset(lab) + multiset(aws) == multiset(data) by {
      PickMultiset(data, m);
    }
    SegmentMembers(data, group, LabLabel);
    SegmentMembers(data, group, other);
  }

  // ---------------------------------------------------------------- the sanitized sample

  lemma KeepMaskIsUsable(rows: seq<Row>, cols: Columns, score: Option<string> -> Option<real>)
    ensures var keep := KeepMask(ScoreColumn(rows, cols.overall, score), PredictorColumns(rows, cols, score));
      forall i :: 0 <= i < |rows| ==> (keep[i] <==> Usable(rows[i], cols, score))
  {
    var xs := PredictorColumns(rows, cols, score);
    forall i | 0 <= i < |rows|
      ensures AnyPresent(seq(3, j requires 0 <= j < 3 => xs[j][i]))
          <==> exists j :: 0 <= j < 3 && score(Cell(rows[i], Predictors(cols)[j])).Some?
    {
      var cells := seq(3, j requires 0 <= j < 3 => xs[j][i]);
      assert forall j :: 0 <= j < 3 ==> cells[j] == score(Cell(rows[i], Predictors(cols)[j]));
    }
  }

  /** The scores of predictor `j` over the kept rows. */
  function KeptColumn(data: seq<Row>, cols: Columns, segment: string, score: Option<string> -> Option<real>, j: nat): seq<Option<real>>
    requires j < 3
  {
    ScoreColumn(KeptRows(data, cols, segment, score), Predictors(cols)[j], score)
  }

  /** Each imputed cell: the kept row's score if present, else the kept rows' mean of that predictor. */
  lemma SanitizeCells(data: seq<Row>, cols: Columns, segment: string, score: Option<string> -> Option<real>)
    ensures var s, n := Sanitize(data, cols, segment, score), |KeptRows(data, cols, segment, score)|;
      && |s.y| == n
      && forall k, j :: 0 <= k < n && 0 <= j < 3 ==>
           s.X[k][j] == (if KeptColumn(data, cols, segment, score, j)[k].Some?
                         then KeptColumn(data, cols, segment, score, j)[k]
                         else Mean(KeptColumn(data, cols, segment, score, j)))
  {
    var rows := SegmentRows(data, cols.group, segment);
    var xs := PredictorColumns(rows, cols, score);
    var keep := KeepMask(ScoreColumn(rows, cols.overall, score), xs);
    forall j | 0 <= j < 3
      ensures Pick(xs[j], keep) == KeptColumn(data, cols, segment, score, j)
    {
      PickScoreColumn(rows, keep, Predictors(cols)[j], score);
    }
  }

  /**
   * What `sanitizeAndFit` feeds the standardisation: `n == y.length` is the number
   * of kept rows; the kept rows are exactly the usable rows of the segment, in order;
   * each kept row's target is its `y` entry; a present predictor is copied unchanged
   * and an absent one becomes the mean of that predictor over the kept rows only.
   */
  lemma SanitizeKept(data: seq<Row>, cols: Columns, segment: string, score: Option<string> -> Option<real>)
    ensures var s, kept, rows := Sanitize(data, cols, segment, score), KeptRows(data, cols, segment, score), SegmentRows(data, cols.group, segment);
      && |s.y| == |kept| == |s.X|
      && kept == Pick(rows, seq(|rows|, i requires 0 <= i < |rows| => Usable(rows[i], cols, score)))
      && (forall k :: 0 <= k < |kept| ==> Usable(kept[k], cols, score))
      && (forall k :: 0 <= k < |kept| ==> score(Cell(kept[k], cols.overall)) == Some(s.y[k]))
      && (forall k, j :: 0 <= k < |kept| && 0 <= j < 3 ==>
            s.X[k][j] == (if KeptColumn(data, cols, segment, score, j)[k].Some?
                          then KeptColumn(data, cols, segment, score, j)[k]
                          else Mean(KeptColumn(data, cols, segment, score, j))))
  {
    var rows := SegmentRows(data, cols.group, segment);
    var keep := KeepMask(ScoreColumn(rows, cols.overall, score), PredictorColumns(rows, cols, score));
    var kept := Pick(rows, keep);
    KeepMaskIsUsable(rows, cols, score);
    assert keep == seq(|rows|, i requires 0 <= i < |rows| => Usable(rows[i], cols, score));
    PickScoreColumn(rows, keep, cols.overall, score);
    SanitizeCells(data, cols, segment, score);
    forall k | 0 <= k < |kept|
      ensures Usable(kept[k], cols, score)
    {
      PickAt(rows, keep, k);
    }
  }

  /**
   * A matrix imputed column by column from `cols` has no absent cell exactly when
   * it has no rows or every column has a present value.
   */
  lemma ImputedDense(X: seq<seq<Option<real>>>, cols: seq<seq<Option<real>>>, n: nat)
    requires |X| == n && |cols| == 3
    requires forall j :: 0 <= j < 3 ==> |cols[j]| == n
    requires forall k :: 0 <= k < n ==> |X[k]| == 3
    requires forall k, j :: 0 <= k < n && 0 <= j < 3 ==>
      X[k][j] == (if cols[j][k].Some? then cols[j][k] else Mean(cols[j]))
    ensures Dense(X) <==> (n == 0 || forall j :: 0 <= j < 3 ==> AnyPresent(cols[j]))
  {
    forall j | 0 <= j < 3
      ensures Mean(cols[j]).Some? <==> AnyPresent(cols[j])
    {
      assert Mean(cols[j]).None? <==> forall i :: 0 <= i < |cols[j]| ==> cols[j][i].None?;
    }
    if n > 0 && Dense(X) {
      forall j | 0 <= j < 3
        ensures AnyPresent(cols[j])
      {
        assert X[0][j].Some?;
      }
    }
    if forall j :: 0 <= j < 3 ==> AnyPresent(cols[j]) {
      forall k, j | 0 <= k < |X| && 0 <= j < |X[k]|
        ensures X[k][j].Some?
      {
        assert Mean(cols[j]).Some?;
      }
    }
  }

  /**
   * The imputed matrix has no NaN cell exactly when there are no kept rows or
   * every predictor has a present value among the kept rows.
   */
  lemma SanitizeDense(data: seq<Row>, cols: Columns, segment: string, score: Option<string> -> Option<real>)
    ensures var s, n := Sanitize(data, cols, segment, score), |KeptRows(data, cols, segment, score)|;
      Dense(s.X) <==> (n == 0 || forall j :: 0 <= j < 3 ==> AnyPresent(KeptColumn(data, cols, segment, score, j)))
  {
    var s, n := Sanitize(data, cols, segment, score), |KeptRows(data, cols, segment, score)|;
    var kc: seq<seq<Option<real>>> := seq(3, j requires 0 <= j < 3 => KeptColumn(data, cols, segment, score, j));
    assert |s.X| == n && forall k, j :: 0 <= k < n && 0 <= j < 3 ==>
      s.X[k][j] == (if kc[j][k].Some? then kc[j][k] else Mean(kc[j])) by {
      SanitizeCells(data, cols, segment, score);
    }
    ImputedDense(s.X, kc, n);
    assert (forall j :: 0 <= j < 3 ==> AnyPresent(kc[j]))
       <==> (forall j :: 0 <= j < 3 ==> AnyPresent(KeptColumn(data, cols, segment, score, j))) by {
      assert forall j :: 0 <= j < 3 ==> kc[j] == KeptColumn(data, cols, segment, score, j);
    }
  }

  // ------------------------------------------- the blank cell through the pipeline

  /** The five headers name five different columns, as the page's defaults do. */
  predicate Distinct(cols: Columns)
  {
    && cols.overall != cols.search && cols.overall != cols.exportFeature && cols.overall != cols.change
    && cols.overall != cols.group && cols.search != cols.exportFeature && cols.search != cols.change
    && cols.search != cols.group && cols.exportFeature != cols.change && cols.exportFeature != cols.group
    && cols.change != cols.group
  }

  /**
   * A respondent outside the Lab who left the overall question blank and rated
   * the three features A, B and C.
   */
  function SkippedTarget(cols: Columns): Row
  {
    map[cols.overall := "", cols.search := "A", cols.exportFeature := "B", cols.change := "C", cols.group := "x"]
  }

  /**
   * As written the blank target scores 0 and the respondent enters the AWS sample
   * with target 0 and predictors 5, 4, 3; with blank cells absent the row is
   * dropped and the AWS sample is empty.
   */
  lemma SkippedTargetKeptAsWritten(cols: Columns, parse: string -> Option<real>)
    requires Distinct(cols)
    ensures Sanitize([SkippedTarget(cols)], cols, "AWS", AsWritten(parse))
         == Sample([0.0], [[Some(5.0), Some(4.0), Some(3.0)]])
    ensures Sanitize([SkippedTarget(cols)], cols, "AWS", Corrected(parse)) == Sample([], [])
  {
    SkippedTargetWritten(cols, parse);
    SkippedTargetDropped(cols, parse);
  }

  /** The as-written half of `SkippedTargetKeptAsWritten`. */
  lemma SkippedTargetWritten(cols: Columns, parse: string -> Option<real>)
    requires Distinct(cols)
    ensures Sanitize([SkippedTarget(cols)], cols, "AWS", AsWritten(parse))
         == Sample([0.0], [[Some(5.0), Some(4.0), Some(3.0)]])
  {
    var row := SkippedTarget(cols);
    var written := AsWritten(parse);
    SkippedTargetInAws(cols);
    WrittenScores(cols, parse);
    OneRowSample(row, cols, "AWS", written);
  }

  /** The corrected half of `SkippedTargetKeptAsWritten`. */
  lemma SkippedTargetDropped(cols: Columns, parse: string -> Option<real>)
    requires Distinct(cols)
    ensures Sanitize([SkippedTarget(cols)], cols, "AWS", Corrected(parse)) == Sample([], [])
  {
    var row := SkippedTarget(cols);
    SkippedTargetInAws(cols);
    CorrectedScores(cols, parse);
    OneRowSample(row, cols, "AWS", Corrected(parse));
  }

  /** `SkippedTarget` belongs to the AWS segment, and the predictors are in page order. */
  lemma SkippedTargetInAws(cols: Columns)
    requires Distinct(cols)
    ensures SegmentRows([SkippedTarget(cols)], cols.group, "AWS") == [SkippedTarget(cols)]
    ensures Predictors(cols) == [cols.search, cols.exportFeature, cols.change]
  {
    var row := SkippedTarget(cols);
    assert Cell(row, cols.group) == Some("x");
    assert SegmentMask([row], cols.group, "AWS") == [true];
  }

  /** The scores of the cells of `SkippedTarget` as the page reads them. */
  lemma WrittenScores(cols: Columns, parse: string -> Option<real>)
    requires Distinct(cols)
    ensures var row, score := SkippedTarget(cols), AsWritten(parse);
      && score(Cell(row, cols.overall)) == Some(0.0)
      && score(Cell(row, cols.search)) == Some(5.0)
      && score(Cell(row, cols.exportFeature)) == Some(4.0)
      && score(Cell(row, cols.change)) == Some(3.0)
  {
    var row := SkippedTarget(cols);
    assert Cell(row, cols.overall) == Some("") && Cell(row, cols.search) == Some("A")
        && Cell(row, cols.exportFeature) == Some("B") && Cell(row, cols.change) == Some("C");
    BlankCellScoresZeroAsWritten("", parse);
    LetterScore("A", parse);
    LetterScore("B", parse);
    LetterScore("C", parse);
  }

  /** The scores of the cells of `SkippedTarget` when a blank cell is absent. */
  lemma CorrectedScores(cols: Columns, parse: string -> Option<real>)
    requires Distinct(cols)
    ensures var row, score := SkippedTarget(cols), Corrected(parse);
      && score(Cell(row, cols.overall)) == None
      && score(Cell(row, cols.search)) == Some(5.0)
      && score(Cell(row, cols.exportFeature)) == Some(4.0)
      && score(Cell(row, cols.change)) == Some(3.0)
  {
    var row := SkippedTarget(cols);
    assert Cell(row, cols.overall) == Some("") && Cell(row, cols.search) == Some("A")
        && Cell(row, cols.exportFeature) == Some("B") && Cell(row, cols.change) == Some("C");
    assert Blank("");
    LetterScore("A", parse);
    LetterScore("B", parse);
    LetterScore("C", parse);
  }

  /** The page's default headers are five different columns. */
  lemma DefaultColumnsDistinct()
    ensures Distinct(DefaultColumns)
  {
  }

  /** The sample of a one-row table, from the scores of its five cells. */
  lemma OneRowSample(row: Row, cols: Columns, segment: string, score: Option<string> -> Option<real>)
    requires SegmentRows([row], cols.group, segment) == [row]
    requires forall j :: 0 <= j < 3 ==> score(Cell(row, Predictors(cols)[j])).Some?
    ensures var y := score(Cell(row, cols.overall));
      y.None? ==> Sanitize([row], cols, segment, score) == Sample([], [])
    ensures var y := score(Cell(row, cols.overall));
      y.Some? ==> Sanitize([row], cols, segment, score)
                  == Sample([y.value], [[score(Cell(row, cols.search)), score(Cell(row, cols.exportFeature)),
                                         score(Cell(row, cols.change))]])
  {
    var y := score(Cell(row, cols.overall));
    OneRowKept(row, cols, segment, score);
    SanitizeKept([row], cols, segment, score);
    var s := Sanitize([row], cols, segment, score);
    if y.Some? {
      assert s.y == [y.value];
      var cells := [score(Cell(row, cols.search)), score(Cell(row, cols.exportFeature)), score(Cell(row, cols.change))];
      forall j | 0 <= j < 3
        ensures s.X[0][j] == cells[j]
      {
        assert KeptColumn([row], cols, segment, score, j) == ScoreColumn([row], Predictors(cols)[j], score);
        assert ScoreColumn([row], Predictors(cols)[j], score)[0] == cells[j];
      }
      assert s.X[0] == cells;
      assert s.X == [cells];
    }
  }

  /** A one-row table whose predictors are all answered keeps its row exactly when the target is answered. */
  lemma OneRowKept(row: Row, cols: Columns, segment: string, score: Option<string> -> Option<real>)
    requires SegmentRows([row], cols.group, segment) == [row]
    requires forall j :: 0 <= j < 3 ==> score(Cell(row, Predictors(cols)[j])).Some?
    ensures KeptRows([row], cols, segment, score) == if score(Cell(row, cols.overall)).Some? then [row] else []
  {
    OneRowKeep(row, cols, score);
    PickOne([row], score(Cell(row, cols.overall)).Some?);
  }

  /** The scores and the keep mask of a one-row table whose predictors are all answered. */
  lemma OneRowKeep(row: Row, cols: Columns, score: Option<string> -> Option<real>)
    requires forall j :: 0 <= j < 3 ==> score(Cell(row, Predictors(cols)[j])).Some?
    ensures var y, xs := score(Cell(row, cols.overall)), PredictorColumns([row], cols, score);
      && ScoreColumn([row], cols.overall, score) == [y]
      && (forall j :: 0 <= j < 3 ==> xs[j] == [score(Cell(row, Predictors(cols)[j]))])
      && KeepMask([y], xs) == [y.Some?]
  {
    var y, xs := score(Cell(row, cols.overall)), PredictorColumns([row], cols, score);
    assert ScoreColumn([row], cols.overall, score) == [y];
    assert forall j :: 0 <= j < 3 ==> xs[j] == [score(Cell(row, Predictors(cols)[j]))];
    assert seq(3, j requires 0 <= j < 3 => xs[j][0])[0].Some?;
  }

  /** Picking from a single element keeps it exactly when its flag is set. */
  lemma PickOne<T>(s: seq<T>, b: bool)
    requires |s| == 1
    ensures Pick(s, [b]) == if b then s else []
  {
    assert Pick(s, [b]) == Pick(s[..0], [b][..0]) + (if b then [s[0]] else []);
  }

  /** A one-letter cell A..E scores its letter, under either scorer. */
  lemma LetterScore(s: string, parse: string -> Option<real>)
    requires |s| == 1 && s[0] in LetterMap
    ensures MapScoreAsWritten(Some(s), parse) == Some(LetterMap[s[0]])
    ensures MapScore(Some(s), parse) == Some(LetterMap[s[0]])
  {
    assert TrimStart(s) == s && TrimEnd(s) == s;
    assert ToUpper(s[0]) == s[0];
    assert !Blank(s);
    LetterDecides(s, parse);
  }
}
