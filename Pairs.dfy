/**
 * The list of unordered pairs that the nested loops
 * `for (i = 0; i < n; i++) for (j = i + 1; j < n; j++)` enumerate
 * (static/js/network.js:145-149 and 187-191), which is also the 'connected'
 * layout `[(i, j) for i in range(n) for j in range(i + 1, n)]` of
 * simulation.py:11 when the ids are `range(n)`.
 */
module Pairs {

  predicate StrictlyIncreasing(ids: seq<nat>)
  {
    forall x, y | 0 <= x < y < |ids| :: ids[x] < ids[y]
  }

  predicate Distinct<T(==)>(s: seq<T>)
  {
    forall x, y | 0 <= x < y < |s| :: s[x] != s[y]
  }

  predicate LexLess(p: (nat, nat), q: (nat, nat))
  {
    p.0 < q.0 || (p.0 == q.0 && p.1 < q.1)
  }

  predicate LexSorted(ps: seq<(nat, nat)>)
  {
    forall x, y | 0 <= x < y < |ps| :: LexLess(ps[x], ps[y])
  }

  /** `range(n)`. */
  function Range(n: nat): (r: seq<nat>)
    ensures |r| == n && forall i | 0 <= i < n :: r[i] == i
  {
    seq(n, i requires 0 <= i < n => i)
  }

  /** n choose 2, the number of unordered pairs over n ids. */
  function Choose2(m: nat): nat
  {
    if m == 0 then 0 else m * (m - 1) / 2
  }

  /** What the inner loop produces for a fixed i: (ids[i], ids[j]) for j = i+1 .. n-1. */
  function Row(ids: seq<nat>, i: nat): seq<(nat, nat)>
    requires i < |ids|
  {
    seq(|ids| - i - 1, j requires 0 <= j < |ids| - i - 1 => (ids[i], ids[i + 1 + j]))
  }

  /** What the outer loop has produced after its first i iterations. */
  function PairsBefore(ids: seq<nat>, i: nat): seq<(nat, nat)>
    requires i <= |ids|
  {
    if i == 0 then [] else PairsBefore(ids, i - 1) + Row(ids, i - 1)
  }

  function AllPairs(ids: seq<nat>): seq<(nat, nat)>
  {
    PairsBefore(ids, |ids|)
  }

  lemma {:induction false} PairsBeforeLength(ids: seq<nat>, i: nat)
    requires i <= |ids|
    ensures 2 * |PairsBefore(ids, i)| == i * (2 * |ids| - i - 1)
  {
    if i > 0 {
      PairsBeforeLength(ids, i - 1);
      var n := |ids|;
      assert (i - 1) * (2 * n - i) + 2 * (n - i) == i * (2 * n - i - 1);
    }
  }

  /** There are exactly m(m-1)/2 pairs. */
  lemma AllPairsLength(ids: seq<nat>)
    ensures |AllPairs(ids)| == Choose2(|ids|)
  {
    PairsBeforeLength(ids, |ids|);
  }

  lemma {:induction false} PairsBeforeHas(ids: seq<nat>, i: nat, a: nat, b: nat)
    requires a < i <= |ids| && a < b < |ids|
    ensures (ids[a], ids[b]) in PairsBefore(ids, i)
  {
    if a == i - 1 {
      assert Row(ids, a)[b - a - 1] == (ids[a], ids[b]);
    } else {
      PairsBeforeHas(ids, i - 1, a, b);
    }
  }

  lemma {:induction false} PairsBeforeOnly(ids: seq<nat>, i: nat, p: (nat, nat))
    requires i <= |ids| && p in PairsBefore(ids, i)
    ensures exists a, b :: 0 <= a < i && a < b < |ids| && p == (ids[a], ids[b])
  {
    if p in PairsBefore(ids, i - 1) {
      PairsBeforeOnly(ids, i - 1, p);
    } else {
      var r := Row(ids, i - 1);
      var t :| 0 <= t < |r| && r[t] == p;
      assert p == (ids[i - 1], ids[i + t]);
    }
  }

  /** Over increasing ids, the pairs are exactly the (a, b) with a < b both among the ids. */
  lemma AllPairsMember(ids: seq<nat>, a: nat, b: nat)
    requires StrictlyIncreasing(ids)
    ensures (a, b) in AllPairs(ids) <==> a in ids && b in ids && a < b
  {
    if (a, b) in AllPairs(ids) {
      PairsBeforeOnly(ids, |ids|, (a, b));
    }
    if a in ids && b in ids && a < b {
      var x :| 0 <= x < |ids| && ids[x] == a;
      var y :| 0 <= y < |ids| && ids[y] == b;
      PairsBeforeHas(ids, |ids|, x, y);
    }
  }

  lemma {:induction false} PairsBeforeSorted(ids: seq<nat>, i: nat)
    requires StrictlyIncreasing(ids) && i <= |ids|
    ensures LexSorted(PairsBefore(ids, i))
    ensures i < |ids| ==> forall p | p in PairsBefore(ids, i) :: p.0 < ids[i]
  {
    if i > 0 {
      PairsBeforeSorted(ids, i - 1);
      var s, r := PairsBefore(ids, i - 1), Row(ids, i - 1);
      assert PairsBefore(ids, i) == s + r;
      forall x, y | 0 <= x < y < |s + r|
        ensures LexLess((s + r)[x], (s + r)[y])
      {
        if y >= |s| && x < |s| {
          assert s[x] in s;
        }
      }
      if i < |ids| {
        forall p | p in s + r
          ensures p.0 < ids[i]
        {
          if p in s {
            PairsBeforeOnly(ids, i - 1, p);
          }
        }
      }
    }
  }

  /** The pairs come out in lexicographic order, hence without repetition. */
  lemma AllPairsSorted(ids: seq<nat>)
    requires StrictlyIncreasing(ids)
    ensures LexSorted(AllPairs(ids)) && Distinct(AllPairs(ids))
  {
    PairsBeforeSorted(ids, |ids|);
  }
}
