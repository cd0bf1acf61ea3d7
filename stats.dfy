/**
 * `mean` of the pipeline (app/csat/page.tsx): the average of the present
 * entries of a list of optional scores, undefined (NaN) when none is present.
 * JavaScript's NaN result is the `None` of this model.
 */
module Stats {
  import opened Wrappers
  import opened Algebra
  import opened Masks

  /** Which entries of a list are present: the mask `filter` applies in `mean`. */
  function PresentMask(arr: seq<Option<real>>): (m: seq<bool>)
    ensures |m| == |arr|
  {
    seq(|arr|, i requires 0 <= i < |arr| => arr[i].Some?)
  }

  /**
   * The present values of a list, in order: the `filter` step of `mean`. The
   * `k`-th value is the value of the `k`-th present entry, so both the order and
   * the number of repetitions of the present values are kept.
   */
  function Present(arr: seq<Option<real>>): (vals: seq<real>)
    ensures |vals| == Count(PresentMask(arr))
    ensures forall k :: 0 <= k < |vals| ==> arr[KeptAt(PresentMask(arr), k)] == Some(vals[k])
    ensures forall v :: v in vals <==> Some(v) in arr
  {
    if |arr| == 0 then []
    else
      var n := |arr| - 1;
      var init := Present(arr[..n]);
      assert arr == arr[..n] + [arr[n]];
      assert PresentMask(arr)[..n] == PresentMask(arr[..n]);
      match arr[n]
      case Some(v) => init + [v]
      case None => init
  }

  /** `mean(arr)`: sum over count of the present entries, `None` (NaN) exactly when none is present. */
  function Mean(arr: seq<Option<real>>): (r: Option<real>)
    ensures r.None? <==> forall i :: 0 <= i < |arr| ==> arr[i].None?
  {
    var vals := Present(arr);
    if |vals| == 0 then None
    else
      assert vals[0] in vals;
      Some(Average(vals))
  }

  /** Every entry present, as a list of optional scores. */
  function Lift(s: seq<real>): (r: seq<Option<real>>)
    ensures |r| == |s| && forall i :: 0 <= i < |s| ==> r[i] == Some(s[i])
  {
    seq(|s|, i requires 0 <= i < |s| => Some(s[i]))
  }

  /** Filtering a list without gaps keeps every value. */
  lemma {:induction false} PresentOfLift(s: seq<real>)
    ensures Present(Lift(s)) == s
    decreases |s|
  {
    if |s| > 0 {
      var n := |s| - 1;
      assert Lift(s) == Lift(s[..n]) + [Some(s[n])];
      PresentOfLift(s[..n]);
      PresentSnoc(Lift(s[..n]), s[n]);
      LastSplit(s);
    }
  }

  lemma PresentSnoc(a: seq<Option<real>>, v: real)
    ensures Present(a + [Some(v)]) == Present(a) + [v]
  {
    assert (a + [Some(v)])[..|a|] == a;
  }

  lemma LastSplit(s: seq<real>)
    requires |s| > 0
    ensures s[..|s| - 1] + [s[|s| - 1]] == s
  {
  }

  /** On a dense list, `mean` is the plain average. */
  lemma MeanOfDense(s: seq<real>)
    requires |s| > 0
    ensures Present(Lift(s)) == s
    ensures Mean(Lift(s)) == Some(Average(s))
  {
    PresentOfLift(s);
  }

  /**
   * The mean lies between the smallest and the largest present value: some present
   * value is at most the mean and some present value is at least it.
   */
  lemma MeanBetween(arr: seq<Option<real>>, m: real)
    requires Mean(arr) == Some(m)
    ensures exists i :: 0 <= i < |arr| && arr[i].Some? && arr[i].value <= m
    ensures exists i :: 0 <= i < |arr| && arr[i].Some? && m <= arr[i].value
  {
    var vals := Present(arr);
    AverageBetween(vals);
    var lo :| 0 <= lo < |vals| && vals[lo] <= m;
    var hi :| 0 <= hi < |vals| && m <= vals[hi];
    assert vals[lo] in vals && vals[hi] in vals;
  }

  /** Bounds on the present entries bound the mean (so scores in 1..5 average into 1..5). */
  lemma MeanBounded(arr: seq<Option<real>>, lo: real, hi: real)
    requires forall i :: 0 <= i < |arr| && arr[i].Some? ==> lo <= arr[i].value <= hi
    ensures Mean(arr).Some? ==> lo <= Mean(arr).value <= hi
  {
    if Mean(arr).Some? {
      MeanBetween(arr, Mean(arr).value);
    }
  }
}
