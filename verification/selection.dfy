/**
 Result selection: `categoriesScores.indexOf(Math.min(...categoriesScores))`
 picks the first category with the lowest score, and that index picks the
 descriptive record from the results catalogue.
 */
module Selection {
  import opened Types

  /** A value `Math.min` can return for integer arguments: one of them, or +Infinity when there are none. */
  datatype Extended = Finite(n: int) | PosInfinity

  /** `Math.min(...xs)`. */
  function MathMin(xs: seq<int>): (m: Extended)
    ensures m.PosInfinity? <==> |xs| == 0
    ensures m.Finite? ==> m.n in xs
    ensures m.Finite? ==> forall i :: 0 <= i < |xs| ==> m.n <= xs[i]
  {
    if |xs| == 0 then PosInfinity
    else
      match MathMin(xs[1..])
      case PosInfinity => Finite(xs[0])
      case Finite(m) =>
        assert forall i :: 1 <= i < |xs| ==> xs[i] == xs[1..][i - 1];
        Finite(if xs[0] <= m then xs[0] else m)
  }

  /** `xs.indexOf(v)` with strict equality: the first position holding `v`, or -1. */
  function IndexOf(xs: seq<int>, v: Extended): (k: int)
    ensures -1 <= k < |xs|
    ensures k == -1 <==> forall i :: 0 <= i < |xs| ==> Finite(xs[i]) != v
    ensures 0 <= k ==> Finite(xs[k]) == v
    ensures forall i :: 0 <= i < k ==> Finite(xs[i]) != v
  {
    if |xs| == 0 then -1
    else if Finite(xs[0]) == v then 0
    else
      var k := IndexOf(xs[1..], v);
      assert forall i :: 1 <= i < |xs| ==> xs[i] == xs[1..][i - 1];
      if k == -1 then -1 else k + 1
  }

  /** `i` is the first position of a minimum of `xs`. */
  ghost predicate IsFirstMinimum(xs: seq<int>, i: int)
  {
    && 0 <= i < |xs|
    && (forall j :: 0 <= j < |xs| ==> xs[i] <= xs[j])
    && (forall j :: 0 <= j < i ==> xs[i] < xs[j])
  }

  /** `minResultCategoryIdx`: the first index of the lowest score, or -1 for no scores. */
  function MinIndex(scores: seq<int>): (k: int)
    ensures k == -1 <==> |scores| == 0
    ensures |scores| > 0 ==> IsFirstMinimum(scores, k)
  {
    IndexOf(scores, MathMin(scores))
  }

  /** At most one index is the first position of a minimum. */
  lemma FirstMinimumUnique(xs: seq<int>, i: int, j: int)
    requires IsFirstMinimum(xs, i) && IsFirstMinimum(xs, j)
    ensures i == j
  {
    assert xs[i] == xs[j];
  }

  /**
   `results[minResultCategoryIdx]`: the catalogue entry at the selected index,
   `undefined` (None) for the index -1 and for an index past the catalogue.
   */
  function SelectResult<R>(scores: seq<int>, results: seq<R>): (r: Option<R>)
    ensures r.Some? <==> 0 < |scores| && MinIndex(scores) < |results|
    ensures r.Some? ==> exists k :: IsFirstMinimum(scores, k) && k < |results| && r.value == results[k]
  {
    var k := MinIndex(scores);
    if 0 <= k < |results| then Some(results[k]) else None
  }

  /** The first of several equal lowest scores wins. */
  lemma MinIndexExample()
    ensures MinIndex([30, 10, 50]) == 1
    ensures MinIndex([20, 10, 10]) == 1
    ensures MinIndex([]) == -1
  {
    assert IsFirstMinimum([30, 10, 50], 1);
    FirstMinimumUnique([30, 10, 50], 1, MinIndex([30, 10, 50]));
    assert IsFirstMinimum([20, 10, 10], 1);
    FirstMinimumUnique([20, 10, 10], 1, MinIndex([20, 10, 10]));
  }
}
