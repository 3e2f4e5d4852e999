/**
 * Choosing which knowledge-base records go into the prompt.
 *
 * Ranked path: the similarity scores (one per record) are argsorted in
 * ascending order, the last three indices are kept and reversed, so the
 * best-scoring record comes first. The argsort used by the program does not
 * promise any order among equal scores, so the ranked selection is defined
 * over ANY ascending argsort `order` of the scores; every property below holds
 * whichever order the library picks.
 *
 * Fallback path: the first min(3, n) records, in store order.
 */
module Selection {

  /** How many records are passed to the prompt. */
  const TopK: nat := 3

  function Min(a: nat, b: nat): nat
  {
    if a <= b then a else b
  }

  /** Every selected index names a record of a store of `n` records. */
  predicate InRange(sel: seq<nat>, n: nat)
  {
    forall k :: 0 <= k < |sel| ==> sel[k] < n
  }

  /** No record is selected twice. */
  predicate Distinct(sel: seq<nat>)
  {
    forall a, b :: 0 <= a < b < |sel| ==> sel[a] != sel[b]
  }

  /** Scores are non-decreasing along `s`. */
  predicate SortedBy(scores: seq<real>, s: seq<nat>)
    requires InRange(s, |scores|)
  {
    forall a, b :: 0 <= a < b < |s| ==> scores[s[a]] <= scores[s[b]]
  }

  /**
   * `order` is an ascending argsort of `scores`: a permutation of the indices
   * 0 .. |scores|-1 along which the scores do not decrease. Equal scores may
   * appear in any order.
   */
  predicate IsAscendingArgsort(scores: seq<real>, order: seq<nat>)
  {
    && |order| == |scores|
    && InRange(order, |scores|)
    && Distinct(order)
    && (forall i :: 0 <= i < |scores| ==> i in order)
    && SortedBy(scores, order)
  }

  /**
   * Reference definition of a top-k selection of `scores`: min(k, n) distinct
   * in-range indices, their scores non-increasing along the selection, and no
   * unselected index scoring above a selected one.
   */
  predicate IsTopK(scores: seq<real>, sel: seq<nat>, k: nat)
  {
    && |sel| == Min(k, |scores|)
    && InRange(sel, |scores|)
    && Distinct(sel)
    && (forall a, b :: 0 <= a < b < |sel| ==> scores[sel[a]] >= scores[sel[b]])
    && (forall i, j :: 0 <= i < |scores| && i !in sel && 0 <= j < |sel| ==> scores[i] <= scores[sel[j]])
  }

  function Reverse(s: seq<nat>): (r: seq<nat>)
    ensures |r| == |s|
    ensures forall k :: 0 <= k < |s| ==> r[k] == s[|s| - 1 - k]
  {
    if s == [] then [] else Reverse(s[1..]) + [s[0]]
  }

  /**
   * The ranked selection: the last min(3, n) entries of the ascending argsort,
   * reversed. The k-th selected index is the k-th from the end of `order`.
   */
  function RankedSelection(order: seq<nat>): (r: seq<nat>)
    ensures |r| == Min(TopK, |order|)
    ensures forall k :: 0 <= k < |r| ==> r[k] == order[|order| - 1 - k]
  {
    Reverse(order[|order| - Min(TopK, |order|)..])
  }

  /** The indices 0, 1, ..., m-1 in increasing order. */
  function Range(m: nat): (r: seq<nat>)
    ensures |r| == m
    ensures forall k :: 0 <= k < m ==> r[k] == k
  {
    if m == 0 then [] else Range(m - 1) + [m - 1]
  }

  /** The fallback selection: the first min(3, n) records in store order. */
  function FallbackSelection(n: nat): (r: seq<nat>)
    ensures |r| == Min(TopK, n)
    ensures forall k :: 0 <= k < |r| ==> r[k] == k
    ensures InRange(r, n) && Distinct(r)
    ensures n == 0 ==> r == []
  {
    Range(Min(TopK, n))
  }

  /**
   * The ranked selection taken from any ascending argsort is a top-3 selection:
   * min(3, n) distinct in-range indices, scores non-increasing along the
   * result, every selected score at least every unselected one.
   */
  lemma RankedSelectionIsTopK(scores: seq<real>, order: seq<nat>)
    requires IsAscendingArgsort(scores, order)
    ensures IsTopK(scores, RankedSelection(order), TopK)
  {
    RankedSelectionDescending(scores, order);
    RankedSelectionDominates(scores, order);
  }

  /** Along the ranked selection the indices are distinct and the scores do not increase. */
  lemma RankedSelectionDescending(scores: seq<real>, order: seq<nat>)
    requires IsAscendingArgsort(scores, order)
    ensures InRange(RankedSelection(order), |scores|)
    ensures Distinct(RankedSelection(order))
    ensures forall a, b :: 0 <= a < b < |RankedSelection(order)| ==>
      scores[RankedSelection(order)[a]] >= scores[RankedSelection(order)[b]]
  {
  }

  /** No index left out of the ranked selection scores above a selected one. */
  lemma RankedSelectionDominates(scores: seq<real>, order: seq<nat>)
    requires IsAscendingArgsort(scores, order)
    ensures forall i, j :: 0 <= i < |scores| && i !in RankedSelection(order) && 0 <= j < |RankedSelection(order)| ==>
      scores[i] <= scores[RankedSelection(order)[j]]
  {
    var n := |order|;
    var r := RankedSelection(order);
    var m := |r|;
    forall q | n - m <= q < n
      ensures order[q] in r
    {
      assert r[n - 1 - q] == order[q];
    }
    forall i, j | 0 <= i < n && i !in r && 0 <= j < m
      ensures scores[i] <= scores[r[j]]
    {
      assert i in order;
      var p :| 0 <= p < n && order[p] == i;
      assert p < n - m;
      assert r[j] == order[n - 1 - j];
    }
  }

  /** No two records have the same score. */
  predicate DistinctScores(scores: seq<real>)
  {
    forall i, j :: 0 <= i < j < |scores| ==> scores[i] != scores[j]
  }

  /**
   * Without ties there is only one ascending argsort, so the ranked selection
   * does not depend on how the library orders equal scores.
   */
  lemma RankedSelectionDeterministic(scores: seq<real>, o1: seq<nat>, o2: seq<nat>)
    requires DistinctScores(scores)
    requires IsAscendingArgsort(scores, o1) && IsAscendingArgsort(scores, o2)
    ensures RankedSelection(o1) == RankedSelection(o2)
  {
    ArgsortUnique(scores, o1, o2);
  }

  lemma ArgsortUnique(scores: seq<real>, o1: seq<nat>, o2: seq<nat>)
    requires DistinctScores(scores)
    requires IsAscendingArgsort(scores, o1) && IsAscendingArgsort(scores, o2)
    ensures o1 == o2
  {
    if o1 != o2 {
      var p := FirstDifference(o1, o2);
      FirstLaterPosition(scores, o1, o2, p);
      FirstLaterPosition(scores, o2, o1, p);
      assert false;
    }
  }

  /** The first position where two sequences of the same length differ. */
  lemma FirstDifference(a: seq<nat>, b: seq<nat>) returns (p: nat)
    requires |a| == |b| && a != b
    ensures p < |a| && a[p] != b[p]
    ensures forall q :: 0 <= q < p ==> a[q] == b[q]
  {
    p := 0;
    while a[p] == b[p]
      invariant p < |a|
      invariant forall q :: 0 <= q < p ==> a[q] == b[q]
      decreases |a| - p
    {
      p := p + 1;
    }
  }

  /**
   * Where two ascending argsorts first differ, the entry of the first cannot
   * score above the entry of the second.
   */
  lemma FirstLaterPosition(scores: seq<real>, o1: seq<nat>, o2: seq<nat>, p: nat)
    requires IsAscendingArgsort(scores, o1) && IsAscendingArgsort(scores, o2)
    requires p < |o1| && forall q :: 0 <= q < p ==> o1[q] == o2[q]
    ensures scores[o2[p]] <= scores[o1[p]]
  {
    var a := o1[p];
    assert a in o2;
    var q :| 0 <= q < |o2| && o2[q] == a;
    if q > p {
      assert scores[o2[p]] <= scores[o2[q]];
    }
  }

  /** With at least one record, the first selected record has a maximal score. */
  lemma FirstSelectedIsBest(scores: seq<real>, sel: seq<nat>, k: nat)
    requires IsTopK(scores, sel, k) && k >= 1 && |scores| >= 1
    ensures |sel| >= 1
    ensures forall i :: 0 <= i < |scores| ==> scores[i] <= scores[sel[0]]
  {
  }

  /** Inserts index `x` into `s` before the first entry whose score is at least `x`'s. */
  function Insert(scores: seq<real>, x: nat, s: seq<nat>): (r: seq<nat>)
    requires x < |scores| && InRange(s, |scores|)
    ensures |r| == |s| + 1
    ensures InRange(r, |scores|)
    ensures forall y :: y in r <==> y == x || y in s
  {
    if s == [] then [x]
    else if scores[x] <= scores[s[0]] then [x] + s
    else [s[0]] + Insert(scores, x, s[1..])
  }

  /** Inserting into a sequence sorted by score keeps it sorted. */
  lemma {:induction false} InsertSorted(scores: seq<real>, x: nat, s: seq<nat>)
    requires x < |scores| && InRange(s, |scores|) && SortedBy(scores, s)
    ensures SortedBy(scores, Insert(scores, x, s))
  {
    if s != [] && scores[x] > scores[s[0]] {
      var t := Insert(scores, x, s[1..]);
      InsertSorted(scores, x, s[1..]);
      forall y | y in t
        ensures scores[s[0]] <= scores[y]
      {
        if y != x {
          var q :| 0 <= q < |s[1..]| && s[1..][q] == y;
          assert s[q + 1] == y;
        }
      }
    }
  }

  /** Inserting a new index into a repetition-free sequence keeps it repetition-free. */
  lemma {:induction false} InsertDistinct(scores: seq<real>, x: nat, s: seq<nat>)
    requires x < |scores| && InRange(s, |scores|) && Distinct(s) && x !in s
    ensures Distinct(Insert(scores, x, s))
  {
    if s != [] && scores[x] > scores[s[0]] {
      InsertDistinct(scores, x, s[1..]);
      assert s[0] !in s[1..];
    }
  }

  /** Insertion sort of the indices 0 .. m-1 by score. */
  function ArgsortPrefix(scores: seq<real>, m: nat): (r: seq<nat>)
    requires m <= |scores|
    ensures |r| == m
    ensures InRange(r, |scores|)
    ensures forall y :: y in r <==> 0 <= y < m
    ensures Distinct(r)
    ensures SortedBy(scores, r)
  {
    if m == 0 then []
    else
      var prev := ArgsortPrefix(scores, m - 1);
      InsertSorted(scores, m - 1, prev);
      InsertDistinct(scores, m - 1, prev);
      Insert(scores, m - 1, prev)
  }

  /**
   * One ascending argsort of `scores` (ties kept in index order). It shows
   * that the ranked path's requirement on `order` can always be met; the model
   * never relies on this particular tie order.
   */
  function Argsort(scores: seq<real>): (order: seq<nat>)
    ensures IsAscendingArgsort(scores, order)
  {
    ArgsortPrefix(scores, |scores|)
  }
}
