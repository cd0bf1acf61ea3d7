/**
 * JavaScript's `filter` by a boolean mask (`s.filter((_, i) => keep[i])`), which
 * `sanitizeAndFit` (app/csat/page.tsx) uses for the segment filter and for the
 * keep mask, with the facts the pipeline needs about it: it keeps order, keeps
 * exactly the masked elements, and with the negated mask partitions the list.
 */
module Masks {
  function Count(keep: seq<bool>): (c: nat)
    ensures c <= |keep|
  {
    if |keep| == 0 then 0 else Count(keep[..|keep| - 1]) + (if keep[|keep| - 1] then 1 else 0)
  }

  /** The elements whose mask entry is true, in order: `s.filter((_, i) => keep[i])`. */
  function Pick<T>(s: seq<T>, keep: seq<bool>): (r: seq<T>)
    requires |s| == |keep|
    ensures |r| == Count(keep)
  {
    if |s| == 0 then []
    else
      var n := |s| - 1;
      Pick(s[..n], keep[..n]) + (if keep[n] then [s[n]] else [])
  }

  function Negate(keep: seq<bool>): seq<bool>
  {
    seq(|keep|, i requires 0 <= i < |keep| => !keep[i])
  }

  /** The position in `keep` of its `k`-th true entry. */
  ghost function KeptAt(keep: seq<bool>, k: nat): (i: nat)
    requires k < Count(keep)
    ensures i < |keep| && keep[i]
  {
    var n := |keep| - 1;
    if k < Count(keep[..n]) then KeptAt(keep[..n], k) else n
  }

  /**
   * Merges `a` and `b` back in the order given by `keep`: the next element of `a`
   * where `keep` is true, the next element of `b` where it is false.
   */
  ghost function Weave<T>(keep: seq<bool>, a: seq<T>, b: seq<T>): seq<T>
    requires |a| == Count(keep) && |b| == |keep| - Count(keep)
    decreases |keep|
  {
    if |keep| == 0 then []
    else
      var n := |keep| - 1;
      if keep[n] then Weave(keep[..n], a[..|a| - 1], b) + [a[|a| - 1]]
      else Weave(keep[..n], a, b[..|b| - 1]) + [b[|b| - 1]]
  }

  lemma {:induction false} PickAt<T>(s: seq<T>, keep: seq<bool>, k: nat)
    requires |s| == |keep| && k < Count(keep)
    ensures Pick(s, keep)[k] == s[KeptAt(keep, k)]
    decreases |s|
  {
    var n := |s| - 1;
    if k < Count(keep[..n]) {
      PickAt(s[..n], keep[..n], k);
    }
  }

  /** Positions of kept entries increase with their rank: the filter keeps the order. */
  lemma {:induction false} KeptAtIncreasing(keep: seq<bool>, k1: nat, k2: nat)
    requires k1 < k2 < Count(keep)
    ensures KeptAt(keep, k1) < KeptAt(keep, k2)
    decreases |keep|
  {
    var n := |keep| - 1;
    if k2 < Count(keep[..n]) {
      KeptAtIncreasing(keep[..n], k1, k2);
    }
  }

  /** Every true entry of the mask is the position of some kept element. */
  lemma {:induction false} KeptAtOnto(keep: seq<bool>, i: nat)
    requires i < |keep| && keep[i]
    ensures exists k: nat :: k < Count(keep) && KeptAt(keep, k) == i
    decreases |keep|
  {
    var n := |keep| - 1;
    if i < n {
      KeptAtOnto(keep[..n], i);
      var k: nat :| k < Count(keep[..n]) && KeptAt(keep[..n], k) == i;
      assert KeptAt(keep, k) == i;
    } else {
      assert KeptAt(keep, Count(keep[..n])) == i;
    }
  }

  lemma {:induction false} CountNegate(keep: seq<bool>)
    ensures Count(Negate(keep)) == |keep| - Count(keep)
    decreases |keep|
  {
    if |keep| > 0 {
      var n := |keep| - 1;
      assert Negate(keep)[..n] == Negate(keep[..n]);
      CountNegate(keep[..n]);
    }
  }

  /** The last step of `Pick` on the mask and on its negation, with `n` the last position. */
  lemma PickLast<T>(s: seq<T>, keep: seq<bool>, n: nat)
    requires |s| == |keep| == n + 1
    ensures keep[n] ==> Pick(s, keep) == Pick(s[..n], keep[..n]) + [s[n]]
    ensures keep[n] ==> Pick(s, Negate(keep)) == Pick(s[..n], Negate(keep[..n]))
    ensures !keep[n] ==> Pick(s, keep) == Pick(s[..n], keep[..n])
    ensures !keep[n] ==> Pick(s, Negate(keep)) == Pick(s[..n], Negate(keep[..n])) + [s[n]]
  {
    assert Negate(keep)[..n] == Negate(keep[..n]);
  }

  /** The last step of `Weave`, with `n` the last position of the mask. */
  lemma WeaveLast<T>(keep: seq<bool>, n: nat, a: seq<T>, b: seq<T>, x: T)
    requires |keep| == n + 1 && |a| == Count(keep[..n]) && |b| == n - Count(keep[..n])
    ensures keep[n] ==> (|a + [x]| == Count(keep) && |b| == |keep| - Count(keep)
                         && Weave(keep, a + [x], b) == Weave(keep[..n], a, b) + [x])
    ensures !keep[n] ==> (|a| == Count(keep) && |b + [x]| == |keep| - Count(keep)
                          && Weave(keep, a, b + [x]) == Weave(keep[..n], a, b) + [x])
  {
    assert (a + [x])[..|a|] == a;
    assert (b + [x])[..|b|] == b;
  }

  /** Filtering with a mask and with its negation, then merging by the mask, gives back the list. */
  lemma {:induction false} PickWeave<T>(s: seq<T>, keep: seq<bool>)
    requires |s| == |keep|
    ensures Count(Negate(keep)) == |keep| - Count(keep)
    ensures Weave(keep, Pick(s, keep), Pick(s, Negate(keep))) == s
    decreases |s|
  {
    CountNegate(keep);
    if |s| > 0 {
      var n := |s| - 1;
      var x := s[n];
      var a', b' := Pick(s[..n], keep[..n]), Pick(s[..n], Negate(keep[..n]));
      assert Count(Negate(keep[..n])) == n - Count(keep[..n]) && Weave(keep[..n], a', b') == s[..n] by {
        PickWeave(s[..n], keep[..n]);
      }
      assert s == s[..n] + [x];
      if keep[n] {
        assert Pick(s, keep) == a' + [x] && Pick(s, Negate(keep)) == b' by { PickLast(s, keep, n); }
        assert Weave(keep, a' + [x], b') == Weave(keep[..n], a', b') + [x] by { WeaveLast(keep, n, a', b', x); }
      } else {
        assert Pick(s, keep) == a' && Pick(s, Negate(keep)) == b' + [x] by { PickLast(s, keep, n); }
        assert Weave(keep, a', b' + [x]) == Weave(keep[..n], a', b') + [x] by { WeaveLast(keep, n, a', b', x); }
      }
    }
  }

  lemma MultisetSnoc<T>(a: seq<T>, x: T)
    ensures multiset(a + [x]) == multiset(a) + multiset{x}
  {
  }

  /** Filtering with a mask and with its negation splits the list's elements between the two. */
  lemma {:induction false} PickMultiset<T>(s: seq<T>, keep: seq<bool>)
    requires |s| == |keep|
    ensures multiset(Pick(s, keep)) + multiset(Pick(s, Negate(keep))) == multiset(s)
    decreases |s|
  {
    if |s| > 0 {
      var n := |s| - 1;
      PickMultiset(s[..n], keep[..n]);
      PickMultisetStep(s, keep, n);
    }
  }

  /** The inductive step of `PickMultiset`: the last element goes to exactly one side. */
  lemma PickMultisetStep<T>(s: seq<T>, keep: seq<bool>, n: nat)
    requires |s| == |keep| == n + 1
    requires multiset(Pick(s[..n], keep[..n])) + multiset(Pick(s[..n], Negate(keep[..n]))) == multiset(s[..n])
    ensures multiset(Pick(s, keep)) + multiset(Pick(s, Negate(keep))) == multiset(s)
  {
    var x := s[n];
    var a', b' := Pick(s[..n], keep[..n]), Pick(s[..n], Negate(keep[..n]));
    var ms, ma, mb := multiset(s[..n]), multiset(a'), multiset(b');
    assert multiset(s) == ms + multiset{x} by { MultisetSnoc(s[..n], x); assert s[..n] + [x] == s; }
    PickLast(s, keep, n);
    UnionAddOne(ms, ma, mb, x);
    if keep[n] {
      assert Pick(s, keep) == a' + [x] && Pick(s, Negate(keep)) == b';
      MultisetSnoc(a', x);
    } else {
      assert Pick(s, keep) == a' && Pick(s, Negate(keep)) == b' + [x];
      MultisetSnoc(b', x);
    }
  }

  /** Adding an element to either part of a split adds it to the whole. */
  lemma UnionAddOne<T>(ms: multiset<T>, ma: multiset<T>, mb: multiset<T>, x: T)
    requires ma + mb == ms
    ensures (ma + multiset{x}) + mb == ms + multiset{x}
    ensures ma + (mb + multiset{x}) == ms + multiset{x}
  {
  }
}
