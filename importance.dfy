/**
 * The usage-weighted feature importance of the page (app/csat/page.tsx):
 * `normalize`, the usage lookup `usage[k] || 0`, the scale `Math.max(...usageArr, 1)`,
 * the usage shares `u / maxUsage` and the weights `normalize(|β_i| · usageNorm_i)`.
 */
module Importance {
  import opened Algebra

  /**
   * `normalize`: every entry divided by the total, or all zeros when the total
   * is 0; the shares of a non-zero total add up to 1.
   */
  function Normalize(arr: seq<real>): (r: seq<real>)
    ensures |r| == |arr|
    ensures Sum(arr) != 0.0 ==> Sum(r) == 1.0
    ensures Sum(arr) == 0.0 ==> r == Constant(|arr|, 0.0)
  {
    var s := Sum(arr);
    if s == 0.0 then Constant(|arr|, 0.0)
    else
      var r := seq(|arr|, i requires 0 <= i < |arr| => arr[i] / s);
      SumDivided(arr, s, r);
      DivSelf(s);
      r
  }

  /** Dividing every entry by `s` divides the total by `s`. */
  lemma {:induction false} SumDivided(arr: seq<real>, s: real, r: seq<real>)
    requires s != 0.0
    requires |r| == |arr| && forall i :: 0 <= i < |arr| ==> r[i] == arr[i] / s
    ensures Sum(r) == Sum(arr) / s
    decreases |arr|
  {
    if |arr| > 0 {
      var n := |arr| - 1;
      SumDivided(arr[..n], s, r[..n]);
      var a, b := Sum(arr[..n]), arr[n];
      assert (a + b) / s == a / s + b / s;
    }
  }

  function Abs(x: real): real
  {
    if x < 0.0 then -x else x
  }

  /** `usage[k] || 0`: the recorded usage of a feature, 0 when it has none. */
  function UsageOf(usage: map<string, real>, k: string): real
  {
    if k in usage then usage[k] else 0.0
  }

  /** `featureKeys.map(k => usage[k] || 0)`. */
  function UsageArr(keys: seq<string>, usage: map<string, real>): (arr: seq<real>)
    ensures |arr| == |keys|
  {
    seq(|keys|, i requires 0 <= i < |keys| => UsageOf(usage, keys[i]))
  }

  /**
   * `Math.max(...usageArr, 1)`: the largest usage, and never below 1; it is 1
   * itself or one of the usages.
   */
  function MaxUsage(arr: seq<real>): (m: real)
    ensures 1.0 <= m
    ensures forall i :: 0 <= i < |arr| ==> arr[i] <= m
    ensures m == 1.0 || exists i :: 0 <= i < |arr| && arr[i] == m
  {
    if |arr| == 0 then 1.0
    else
      var n := |arr| - 1;
      var m' := MaxUsage(arr[..n]);
      assert forall i :: 0 <= i < n ==> arr[i] == arr[..n][i];
      if arr[n] > m' then arr[n] else m'
  }

  /**
   * `usageArr.map(u => u / maxUsage)`. With no negative usage every share is in [0, 1], and the largest usage, when
   * it is at least 1, gets share exactly 1.
   */
  function UsageNorm(arr: seq<real>): (r: seq<real>)
    ensures |r| == |arr|
    ensures NonNegative(arr) ==> NonNegative(r) && forall i :: 0 <= i < |arr| ==> r[i] <= 1.0
    ensures forall i :: 0 <= i < |arr| && arr[i] == MaxUsage(arr) ==> r[i] == 1.0
  {
    var m := MaxUsage(arr);
    var r := seq(|arr|, i requires 0 <= i < |arr| => arr[i] / m);
    SharesOfMax(arr, m, r);
    r
  }

  /** Usages divided by a bound of at least 1 that none exceeds. */
  lemma SharesOfMax(arr: seq<real>, m: real, r: seq<real>)
    requires 1.0 <= m && forall i :: 0 <= i < |arr| ==> arr[i] <= m
    requires |r| == |arr| && forall i :: 0 <= i < |arr| ==> r[i] == arr[i] / m
    ensures NonNegative(arr) ==> NonNegative(r) && forall i :: 0 <= i < |arr| ==> r[i] <= 1.0
    ensures forall i :: 0 <= i < |arr| && arr[i] == m ==> r[i] == 1.0
  {
    forall i | 0 <= i < |arr|
      ensures (0.0 <= arr[i] ==> 0.0 <= r[i] <= 1.0) && (arr[i] == m ==> r[i] == 1.0)
    {
      if 0.0 <= arr[i] {
        DivBounds(arr[i], m);
      }
      if arr[i] == m {
        DivSelf(m);
      }
    }
  }

  /** `beta_std.map((b, i) => Math.abs(b) * usageNorm[i])`. */
  function Impact(beta: seq<real>, usageNorm: seq<real>): (r: seq<real>)
    requires |beta| == |usageNorm|
    ensures |r| == |beta|
  {
    seq(|beta|, i requires 0 <= i < |beta| => Abs(beta[i]) * usageNorm[i])
  }

  /**
   * `normalize(beta_std.map((b, i) => Math.abs(b) * usageNorm[i]))`; a feature
   * with zero coefficient or zero usage gets weight 0.
   */
  function Weighted(beta: seq<real>, usageNorm: seq<real>): (w: seq<real>)
    requires |beta| == |usageNorm|
    ensures |w| == |beta|
    ensures forall i :: 0 <= i < |beta| && (beta[i] == 0.0 || usageNorm[i] == 0.0) ==> w[i] == 0.0
  {
    var im := Impact(beta, usageNorm);
    assert forall i :: 0 <= i < |beta| && (beta[i] == 0.0 || usageNorm[i] == 0.0) ==> im[i] == 0.0;
    Normalize(im)
  }

  predicate NonNegative(s: seq<real>)
  {
    forall i :: 0 <= i < |s| ==> 0.0 <= s[i]
  }

  // ---------------------------------------------------------------- normalize

  /** An entry of a list without negative entries is at most the total. */
  lemma {:induction false} TermAtMostSum(s: seq<real>, k: nat)
    requires NonNegative(s) && k < |s|
    ensures s[k] <= Sum(s)
    decreases |s|
  {
    var n := |s| - 1;
    assert NonNegative(s[..n]);
    if k < n {
      TermAtMostSum(s[..n], k);
      assert s[..n][k] == s[k];
      SumAbove(s[..n], 0.0);
    } else {
      SumAbove(s[..n], 0.0);
    }
  }

  /** Normalising a list without negative entries gives shares in [0, 1]. */
  lemma NormalizeBounds(arr: seq<real>)
    requires NonNegative(arr)
    ensures forall i :: 0 <= i < |arr| ==> 0.0 <= Normalize(arr)[i] <= 1.0
  {
    var s := Sum(arr);
    if s != 0.0 {
      SumAbove(arr, 0.0);
      forall i | 0 <= i < |arr|
        ensures 0.0 <= Normalize(arr)[i] <= 1.0
      {
        TermAtMostSum(arr, i);
        DivBounds(arr[i], s);
      }
    }
  }

  /** Normalising keeps the order of the entries when the total is positive. */
  lemma NormalizeMonotone(arr: seq<real>, i: nat, j: nat)
    requires i < |arr| && j < |arr| && 0.0 < Sum(arr) && arr[i] <= arr[j]
    ensures Normalize(arr)[i] <= Normalize(arr)[j]
  {
    DivMonotone(arr[i], arr[j], Sum(arr));
  }

  /** Shares do not depend on the unit: scaling every entry by `c != 0` changes nothing. */
  lemma NormalizeScaleInvariant(c: real, arr: seq<real>)
    requires c != 0.0
    ensures Normalize(Scale(c, arr)) == Normalize(arr)
  {
    var s := Sum(arr);
    SumScale(c, arr);
    if s != 0.0 {
      forall i | 0 <= i < |arr|
        ensures Normalize(Scale(c, arr))[i] == Normalize(arr)[i]
      {
        DivCancel(c, arr[i], s);
      }
    }
  }

  /** Normalising twice is normalising once. */
  lemma NormalizeIdempotent(arr: seq<real>)
    ensures Normalize(Normalize(arr)) == Normalize(arr)
  {
    var r := Normalize(arr);
    if Sum(arr) == 0.0 {
      SumConstant(|arr|, 0.0);
    } else {
      assert forall i :: 0 <= i < |r| ==> r[i] / 1.0 == r[i];
    }
  }

  // ---------------------------------------------------------------- usage

  /** A feature without recorded usage weighs 0; a recorded one weighs its usage. */
  lemma UsageLookup(keys: seq<string>, usage: map<string, real>, i: nat)
    requires i < |keys|
    ensures keys[i] !in usage ==> UsageArr(keys, usage)[i] == 0.0
    ensures keys[i] in usage ==> UsageArr(keys, usage)[i] == usage[keys[i]]
  {
  }

  /** When every usage is below 1, the floor of `Math.max` leaves the usages unscaled. */
  lemma SmallUsageUnscaled(arr: seq<real>)
    requires forall i :: 0 <= i < |arr| ==> arr[i] <= 1.0
    ensures UsageNorm(arr) == arr
  {
    var m := MaxUsage(arr);
    assert m == 1.0;
    assert forall i :: 0 <= i < |arr| ==> arr[i] / 1.0 == arr[i];
  }

  // ---------------------------------------------------------------- weights

  /**
   * With no negative usage the weights are shares: each in [0, 1], summing to 1,
   * unless every feature has zero impact and all weights are 0.
   */
  lemma WeightsAreShares(beta: seq<real>, usageNorm: seq<real>)
    requires |beta| == |usageNorm| && NonNegative(usageNorm)
    ensures forall i :: 0 <= i < |beta| ==> 0.0 <= Weighted(beta, usageNorm)[i] <= 1.0
    ensures Sum(Weighted(beta, usageNorm)) == 1.0 ||
            (Weighted(beta, usageNorm) == Constant(|beta|, 0.0) &&
             forall i :: 0 <= i < |beta| ==> beta[i] == 0.0 || usageNorm[i] == 0.0)
  {
    var im := Impact(beta, usageNorm);
    assert NonNegative(im) by {
      forall i | 0 <= i < |beta|
        ensures 0.0 <= im[i]
      {
        var a, u := Abs(beta[i]), usageNorm[i];
        assert 0.0 <= a * u;
      }
    }
    NormalizeBounds(im);
    if Sum(im) == 0.0 {
      SumZeroNonNegative(im);
      forall i | 0 <= i < |beta|
        ensures beta[i] == 0.0 || usageNorm[i] == 0.0
      {
        assert im[i] == 0.0;
        ProductZero(Abs(beta[i]), usageNorm[i]);
      }
    }
  }

  /**
   * Only the size of a coefficient matters, not its sign or the unit of the
   * target: scaling every coefficient by `c != 0` leaves the weights unchanged.
   */
  lemma WeightsScaleInvariant(c: real, beta: seq<real>, usageNorm: seq<real>)
    requires |beta| == |usageNorm| && c != 0.0
    ensures Weighted(Scale(c, beta), usageNorm) == Weighted(beta, usageNorm)
  {
    var im := Impact(beta, usageNorm);
    assert Impact(Scale(c, beta), usageNorm) == Scale(Abs(c), im) by {
      forall i | 0 <= i < |beta|
        ensures Impact(Scale(c, beta), usageNorm)[i] == Scale(Abs(c), im)[i]
      {
        var b, u := beta[i], usageNorm[i];
        assert Abs(c * b) == Abs(c) * Abs(b);
        assert Abs(c) * Abs(b) * u == Abs(c) * (Abs(b) * u);
      }
    }
    NormalizeScaleInvariant(Abs(c), im);
  }
}
