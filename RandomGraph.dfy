/**
 * The arithmetic and the shuffle of `drawRandomEdges` (static/js/network.js:152-207).
 * The randomness is supplied by the caller: `z0` stands for the standard normal
 * deviate of the Box-Muller transform, and `uniform(i)` for the `Math.random()`
 * draw that the shuffle makes when its index is i.
 */
module RandomGraph {
  import opened Pairs

  /** `boundedNormalSample(max, std)`: the deviate scaled to mean max/2 and spread std, then cut off at 0 and max. */
  function BoundedNormalSample(max: real, std: real, z0: real): (value: real)
    requires max >= 0.0
    ensures 0.0 <= value <= max
    ensures 0.0 <= z0 * std + max / 2.0 <= max ==> value == z0 * std + max / 2.0
    ensures z0 * std + max / 2.0 < 0.0 ==> value == 0.0
    ensures z0 * std + max / 2.0 > max ==> value == max
  {
    var mean := max / 2.0;
    var value := z0 * std + mean;
    if value < 0.0 then 0.0 else if value > max then max else value
  }

  /** `Math.round`: the nearest integer, halves rounded up. */
  function Round(x: real): (r: int)
    ensures x - 0.5 < r as real <= x + 0.5
  {
    (x + 0.5).Floor
  }

  lemma RoundWithin(x: real, m: nat)
    requires 0.0 <= x <= m as real
    ensures 0 <= Round(x) <= m
  {
  }

  /** `nodes.length * (nodes.length - 1) / 2`, a floating-point division in the source. */
  function MaxEdges(m: nat): real
  {
    (m * (m - 1)) as real / 2.0
  }

  lemma {:induction false} ProductEven(m: nat)
    ensures (m * (m - 1)) % 2 == 0
  {
    if m > 0 {
      ProductEven(m - 1);
      assert m * (m - 1) == (m - 1) * (m - 2) + 2 * (m - 1);
    }
  }

  /** The division is exact: m(m-1) is even. */
  lemma MaxEdgesExact(m: nat)
    ensures MaxEdges(m) == Choose2(m) as real
  {
    ProductEven(m);
    var p := m * (m - 1);
    assert p == 2 * (p / 2);
    assert p as real == 2.0 * (p / 2) as real;
  }

  /** The edge count of lines 197-200: clamped sample, rounded. */
  function SampledEdgeCount(m: nat, z0: real): int
  {
    var max := MaxEdges(m);
    Round(BoundedNormalSample(max, max / 6.0, z0))
  }

  /** The sampled count lies in [0, m(m-1)/2], so the cap at `possibleEdges.length` never lowers it. */
  lemma SampledEdgeCountBounds(m: nat, z0: real)
    ensures 0 <= SampledEdgeCount(m, z0) <= Choose2(m)
  {
    MaxEdgesExact(m);
    var max := MaxEdges(m);
    RoundWithin(BoundedNormalSample(max, max / 6.0, z0), Choose2(m));
  }

  lemma MulPositive(p: real, q: real)
    requires p >= 0.0 && q > 0.0
    ensures p * q >= 0.0 && (p > 0.0 ==> p * q > 0.0)
  {
  }

  /** `Math.floor(Math.random() * (i + 1))`. */
  function Pick(u: real, i: nat): (j: nat)
    requires 0.0 <= u < 1.0
    ensures j <= i
  {
    var r := (i + 1) as real;
    var x := u * r;
    MulPositive(u, r);
    MulPositive(1.0 - u, r);
    assert r - x == (1.0 - u) * r;
    assert x.Floor as real <= x;
    x.Floor
  }

  ghost predicate IsUniformSource(uniform: nat -> real)
  {
    forall n: nat :: 0.0 <= uniform(n) < 1.0
  }

  /** `[array[i], array[j]] = [array[j], array[i]]`. */
  function SwapAt<T>(s: seq<T>, i: nat, j: nat): (r: seq<T>)
    requires i < |s| && j < |s|
  {
    s[i := s[j]][j := s[i]]
  }

  lemma SwapPermutes<T>(s: seq<T>, i: nat, j: nat)
    requires i < |s| && j < |s|
    ensures multiset(SwapAt(s, i, j)) == multiset(s)
    ensures |SwapAt(s, i, j)| == |s|
  {
    var t := s[i := s[j]];
    assert multiset(t) == multiset(s) - multiset{s[i]} + multiset{s[j]};
    assert multiset(t[j := s[i]]) == multiset(t) - multiset{t[j]} + multiset{s[i]};
  }

  /** The state of the shuffle when its loop index is i: swaps for the indices i, i-1, .., 1 are still to come. */
  function ShuffleFrom<T>(s: seq<T>, uniform: nat -> real, i: int): (r: seq<T>)
    requires i < |s| && IsUniformSource(uniform)
    decreases i
  {
    if i <= 0 then s else ShuffleFrom(SwapAt(s, i, Pick(uniform(i), i)), uniform, i - 1)
  }

  /** `shuffleArray(array)` as a function of the array's contents (the Fisher-Yates loop from the last index down to 1). */
  function Shuffled<T>(s: seq<T>, uniform: nat -> real): seq<T>
    requires IsUniformSource(uniform)
  {
    ShuffleFrom(s, uniform, |s| - 1)
  }

  lemma {:induction false} ShuffleFromPermutes<T>(s: seq<T>, uniform: nat -> real, i: int)
    requires i < |s| && IsUniformSource(uniform)
    ensures multiset(ShuffleFrom(s, uniform, i)) == multiset(s)
    ensures |ShuffleFrom(s, uniform, i)| == |s|
    decreases i
  {
    if i > 0 {
      var j := Pick(uniform(i), i);
      SwapPermutes(s, i, j);
      ShuffleFromPermutes(SwapAt(s, i, j), uniform, i - 1);
    }
  }

  /** The shuffle is a permutation of its input. */
  lemma ShufflePermutes<T>(s: seq<T>, uniform: nat -> real)
    requires IsUniformSource(uniform)
    ensures multiset(Shuffled(s, uniform)) == multiset(s)
  {
    ShuffleFromPermutes(s, uniform, |s| - 1);
  }

  lemma DistinctByMultiset<T>(s: seq<T>, t: seq<T>)
    requires multiset(s) == multiset(t) && Distinct(s)
    ensures Distinct(t)
  {
    forall x, y | 0 <= x < y < |t|
      ensures t[x] != t[y]
    {
      MultiplicityAtMostOne(s, t[y]);
      assert t == t[..y] + [t[y]] + t[y + 1..];
      assert t[x] in t[..y];
      assert multiset(t)[t[y]] == multiset(t[..y])[t[y]] + 1 + multiset(t[y + 1..])[t[y]];
    }
  }

  lemma {:induction false} MultiplicityAtMostOne<T>(s: seq<T>, u: T)
    requires Distinct(s)
    ensures multiset(s)[u] <= 1
  {
    if s != [] {
      var init := s[..|s| - 1];
      assert s == init + [s[|s| - 1]];
      MultiplicityAtMostOne(init, u);
      if s[|s| - 1] == u {
        assert u !in init;
      }
    }
  }

  /** ShuffleArray's postcondition, established one swap at a time. */
  method ShuffleArray<T>(a: array<T>, uniform: nat -> real)
    requires IsUniformSource(uniform)
    modifies a
    ensures a[..] == Shuffled(old(a[..]), uniform)
    ensures multiset(a[..]) == multiset(old(a[..]))
  {
    var i := a.Length - 1;
    while i > 0
      invariant -1 <= i < a.Length
      invariant ShuffleFrom(a[..], uniform, i) == Shuffled(old(a[..]), uniform)
    {
      var j := Pick(uniform(i), i);
      ghost var before := a[..];
      a[i], a[j] := a[j], a[i];
      assert a[..] == SwapAt(before, i, j);
      i := i - 1;
    }
    ShufflePermutes(old(a[..]), uniform);
  }
}
