/**
 * The easter egg of the web front end (easteregg.py:1-15): five active nodes
 * wired as a five-pointed star. The caller's node list is sorted in place;
 * the star over the sorted nodes s joins s[i] to s[(i + 2) % 5], and it is
 * compared with the drawn edges as sets of undirected (min, max) pairs.
 */
module EasterEgg {

  predicate Sorted(s: seq<int>)
  {
    forall i, j | 0 <= i < j < |s| :: s[i] <= s[j]
  }

  /** Sorting as a value: each element is inserted into the sorted rest. */
  function Insert(x: int, s: seq<int>): (r: seq<int>)
    ensures |r| == |s| + 1
    ensures multiset(r) == multiset(s) + multiset{x}
  {
    if s == [] || x <= s[0] then [x] + s
    else
      assert s == [s[0]] + s[1..];
      [s[0]] + Insert(x, s[1..])
  }

  function SortSeq(s: seq<int>): (r: seq<int>)
    ensures |r| == |s|
    ensures multiset(r) == multiset(s)
  {
    if s == [] then []
    else
      assert s == [s[0]] + s[1..];
      Insert(s[0], SortSeq(s[1..]))
  }

  lemma {:induction false} InsertSorted(x: int, s: seq<int>)
    requires Sorted(s)
    ensures Sorted(Insert(x, s))
  {
    if s != [] && x > s[0] {
      SortedTail(s);
      InsertSorted(x, s[1..]);
      var r := Insert(x, s[1..]);
      forall k | 0 <= k < |r|
        ensures s[0] <= r[k]
      {
        assert r[k] in multiset(r);
        if r[k] != x {
          HeadBelowRest(s, r[k]);
        }
      }
      assert Insert(x, s) == [s[0]] + r;
    }
  }

  lemma HeadBelowRest(s: seq<int>, y: int)
    requires s != [] && Sorted(s) && y in multiset(s[1..])
    ensures s[0] <= y
  {
    var m :| 0 <= m < |s[1..]| && s[1..][m] == y;
    assert s[m + 1] == y;
  }

  lemma SortedTail(a: seq<int>)
    requires a != [] && Sorted(a)
    ensures Sorted(a[1..])
  {
  }

  /** The value model of `list.sort()`: sorted, and a permutation of its input. */
  lemma {:induction false} SortSeqSorted(s: seq<int>)
    ensures Sorted(SortSeq(s))
  {
    if s != [] {
      SortSeqSorted(s[1..]);
      InsertSorted(s[0], SortSeq(s[1..]));
    }
  }

  /** The head of a sorted sequence is its least element. */
  lemma SortedHeadLeast(a: seq<int>, x: int)
    requires Sorted(a) && x in multiset(a)
    ensures a[0] <= x
  {
    var i :| 0 <= i < |a| && a[i] == x;
  }

  lemma TailElements(a: seq<int>)
    requires a != []
    ensures multiset(a[1..]) == multiset(a) - multiset{a[0]}
  {
    assert a == [a[0]] + a[1..];
  }

  /** Two sorted sequences with the same elements are equal: the sorted order is unique. */
  lemma {:induction false} SortedUnique(a: seq<int>, b: seq<int>)
    requires Sorted(a) && Sorted(b) && multiset(a) == multiset(b)
    ensures a == b
  {
    assert |b| == |a| by { assert |multiset(a)| == |multiset(b)|; }
    if a != [] {
      assert a[0] == b[0] by {
        assert a[0] in multiset(b) && b[0] in multiset(a);
        SortedHeadLeast(a, b[0]);
        SortedHeadLeast(b, a[0]);
      }
      assert multiset(a[1..]) == multiset(b[1..]) by {
        TailElements(a);
        TailElements(b);
      }
      SortedTail(a);
      SortedTail(b);
      SortedUnique(a[1..], b[1..]);
      SameHeadSameTail(a, b);
    }
  }

  lemma SameHeadSameTail(a: seq<int>, b: seq<int>)
    requires a != [] && b != [] && a[0] == b[0] && a[1..] == b[1..]
    ensures a == b
  {
    assert a == [a[0]] + a[1..] && b == [b[0]] + b[1..];
  }

  /** `nodes.sort()`: an insertion sort of the caller's array, in place. */
  method SortNodes(a: array<int>)
    modifies a
    ensures Sorted(a[..]) && multiset(a[..]) == multiset(old(a[..]))
  {
    for i := 0 to a.Length
      invariant Sorted(a[..i])
      invariant multiset(a[..]) == multiset(old(a[..]))
    {
      SinkInto(a, i);
    }
    assert a[..a.Length] == a[..];
  }

  /** One pass of the insertion sort: a[i] moves down into the sorted prefix a[..i]. */
  method SinkInto(a: array<int>, i: int)
    requires 0 <= i < a.Length && Sorted(a[..i])
    modifies a
    ensures Sorted(a[..i + 1]) && multiset(a[..]) == multiset(old(a[..]))
  {
    var j := i;
    while j > 0 && a[j - 1] > a[j]
      invariant 0 <= j <= i
      invariant multiset(a[..]) == multiset(old(a[..]))
      invariant forall p, q | 0 <= p < q <= i && p != j && q != j :: a[p] <= a[q]
      invariant forall q | j < q <= i :: a[j] < a[q]
    {
      Swap(a, j - 1, j);
      j := j - 1;
    }
  }

  method Swap(a: array<int>, p: int, q: int)
    requires 0 <= p < a.Length && 0 <= q < a.Length
    modifies a
    ensures a[..] == old(a[..])[p := old(a[q])][q := old(a[p])]
    ensures multiset(a[..]) == multiset(old(a[..]))
  {
    a[p], a[q] := a[q], a[p];
  }

  /** The star over five nodes s: s[i] joined to s[(i + 2) % 5], i = 0 .. 4. */
  function Expected(s: seq<int>): seq<(int, int)>
    requires |s| == 5
  {
    seq(5, i requires 0 <= i < 5 => (s[i], s[(i + 2) % 5]))
  }

  /** `(min(edge), max(edge))`. */
  function Normalise(e: (int, int)): (int, int)
  {
    if e.0 <= e.1 then e else (e.1, e.0)
  }

  /** `[(min(edge), max(edge)) for edge in edges]`. */
  function NormaliseAll(es: seq<(int, int)>): seq<(int, int)>
  {
    seq(|es|, i requires 0 <= i < |es| => Normalise(es[i]))
  }

  /** `set(list)`. */
  function Elements<T>(s: seq<T>): set<T>
  {
    set x | x in s
  }

  /** What `check_pentagram(nodes, edges)` returns. */
  function IsPentagram(nodes: seq<int>, edges: seq<(int, int)>): bool
  {
    |nodes| == 5 && Elements(NormaliseAll(Expected(SortSeq(nodes)))) == Elements(NormaliseAll(edges))
  }

  /**
   * `check_pentagram`: a list of other than five nodes is rejected untouched;
   * otherwise the list is left sorted and the answer is whether the drawn
   * edges are, undirected, exactly the star over it.
   */
  method CheckPentagram(nodes: array<int>, edges: seq<(int, int)>) returns (b: bool)
    modifies nodes
    ensures b == IsPentagram(old(nodes[..]), edges)
    ensures nodes.Length != 5 ==> nodes[..] == old(nodes[..])
    ensures nodes.Length == 5 ==> nodes[..] == SortSeq(old(nodes[..]))
  {
    if nodes.Length != 5 {
      return false;
    }
    SortNodes(nodes);
    SortSeqSorted(old(nodes[..]));
    SortedUnique(nodes[..], SortSeq(old(nodes[..])));
    var pentagramEdges := StarEdges(nodes[..]);
    var drawn := NormaliseAll(edges);
    var star := NormaliseAll(pentagramEdges);
    b := Elements(star) == Elements(drawn);
  }

  /** The loop of `check_pentagram` that joins every node to the one two places on. */
  method StarEdges(s: seq<int>) returns (pentagramEdges: seq<(int, int)>)
    requires |s| == 5
    ensures pentagramEdges == Expected(s)
  {
    pentagramEdges := [];
    for i := 0 to 5
      invariant pentagramEdges == Expected(s)[..i]
    {
      assert Expected(s)[..i + 1] == Expected(s)[..i] + [(s[i], s[(i + 2) % 5])];
      pentagramEdges := pentagramEdges + [(s[i], s[(i + 2) % 5])];
    }
    assert Expected(s)[..5] == Expected(s);
  }

  /** Only the undirected pair matters: turning any edge around leaves the answer unchanged. */
  lemma OrientationFree(nodes: seq<int>, es: seq<(int, int)>, fs: seq<(int, int)>)
    requires |es| == |fs|
    requires forall k | 0 <= k < |es| :: fs[k] == es[k] || fs[k] == (es[k].1, es[k].0)
    ensures IsPentagram(nodes, es) == IsPentagram(nodes, fs)
  {
    assert NormaliseAll(es) == NormaliseAll(fs);
  }

  /** Only the set of drawn edges matters: reordering or repeating edges leaves the answer unchanged. */
  lemma OrderAndRepeatsFree(nodes: seq<int>, es: seq<(int, int)>, fs: seq<(int, int)>)
    requires forall e :: e in es <==> e in fs
    ensures IsPentagram(nodes, es) == IsPentagram(nodes, fs)
  {
    forall p
      ensures p in Elements(NormaliseAll(es)) <==> p in Elements(NormaliseAll(fs))
    {
      if p in NormaliseAll(es) {
        var k :| 0 <= k < |es| && NormaliseAll(es)[k] == p;
        assert es[k] in fs;
        var m :| 0 <= m < |fs| && fs[m] == es[k];
        assert NormaliseAll(fs)[m] == p;
      }
      if p in NormaliseAll(fs) {
        var k :| 0 <= k < |fs| && NormaliseAll(fs)[k] == p;
        assert fs[k] in es;
        var m :| 0 <= m < |es| && es[m] == fs[k];
        assert NormaliseAll(es)[m] == p;
      }
    }
  }

  /** The order in which the nodes arrive does not matter: they are sorted first. */
  lemma NodeOrderFree(nodes: seq<int>, others: seq<int>, edges: seq<(int, int)>)
    requires multiset(nodes) == multiset(others)
    ensures IsPentagram(nodes, edges) == IsPentagram(others, edges)
  {
    SortSeqSorted(nodes);
    SortSeqSorted(others);
    SortedUnique(SortSeq(nodes), SortSeq(others));
    assert |nodes| == |others| by { assert |multiset(nodes)| == |multiset(others)|; }
  }

  /** The star pairs that touch node x. */
  function Incident(star: set<(int, int)>, x: int): set<(int, int)>
  {
    set e | e in star && (e.0 == x || e.1 == x)
  }

  /** A sorted list whose elements occur once each is strictly increasing. */
  lemma SortedOnceStrict(t: seq<int>)
    requires Sorted(t) && forall x :: multiset(t)[x] <= 1
    ensures forall k | 0 <= k < |t| - 1 :: t[k] < t[k + 1]
  {
    forall k | 0 <= k < |t| - 1
      ensures t[k] < t[k + 1]
    {
      assert t == t[..k] + [t[k], t[k + 1]] + t[k + 2..];
      assert multiset(t)[t[k]] >= multiset([t[k], t[k + 1]])[t[k]];
    }
  }

  /** The five undirected star edges over sorted, different nodes a < b < c < d < e. */
  function StarOver(a: int, b: int, c: int, d: int, e: int): set<(int, int)>
  {
    {(a, c), (b, d), (c, e), (a, d), (b, e)}
  }

  lemma StarOfSorted(t: seq<int>)
    requires |t| == 5 && t[0] < t[1] < t[2] < t[3] < t[4]
    ensures Elements(NormaliseAll(Expected(t))) == StarOver(t[0], t[1], t[2], t[3], t[4])
  {
    assert NormaliseAll(Expected(t)) == [(t[0], t[2]), (t[1], t[3]), (t[2], t[4]), (t[0], t[3]), (t[1], t[4])];
  }

  lemma StarCounts(a: int, b: int, c: int, d: int, e: int)
    requires a < b < c < d < e
    ensures |StarOver(a, b, c, d, e)| == 5
    ensures forall x | x in {a, b, c, d, e} :: |Incident(StarOver(a, b, c, d, e), x)| == 2
  {
    var star := StarOver(a, b, c, d, e);
    assert Incident(star, a) == {(a, c), (a, d)};
    assert Incident(star, b) == {(b, d), (b, e)};
    assert Incident(star, c) == {(a, c), (c, e)};
    assert Incident(star, d) == {(b, d), (a, d)};
    assert Incident(star, e) == {(c, e), (b, e)};
  }

  /** A sorted arrangement of five distinct nodes is strictly increasing. */
  lemma SortedDistinctStrict(nodes: seq<int>, t: seq<int>)
    requires |t| == 5 && Sorted(t) && multiset(t) == multiset(nodes)
    requires forall x | x in nodes :: multiset(nodes)[x] == 1
    ensures t[0] < t[1] < t[2] < t[3] < t[4]
  {
    forall x
      ensures multiset(t)[x] <= 1
    {
      if x in nodes {
        assert multiset(t)[x] == multiset(nodes)[x];
      } else {
        assert x !in multiset(nodes);
      }
    }
    SortedOnceStrict(t);
  }

  /** Every node appears among the five entries of any rearrangement of them. */
  lemma RearrangedCovers(nodes: seq<int>, t: seq<int>)
    requires |t| == 5 && multiset(t) == multiset(nodes)
    ensures forall x | x in nodes :: x in {t[0], t[1], t[2], t[3], t[4]}
  {
    forall x | x in nodes
      ensures x in {t[0], t[1], t[2], t[3], t[4]}
    {
      assert x in multiset(t);
      assert t == [t[0], t[1], t[2], t[3], t[4]];
    }
  }

  /**
   * Five distinct nodes yield a star of five different edges, and every
   * node is an end of exactly two of them.
   */
  lemma StarShape(nodes: seq<int>)
    requires |nodes| == 5 && forall x | x in nodes :: multiset(nodes)[x] == 1
    ensures |Elements(NormaliseAll(Expected(SortSeq(nodes))))| == 5
    ensures forall x | x in nodes :: |Incident(Elements(NormaliseAll(Expected(SortSeq(nodes)))), x)| == 2
  {
    var t := SortSeq(nodes);
    SortSeqSorted(nodes);
    SortedDistinctStrict(nodes, t);
    RearrangedCovers(nodes, t);
    StarOfSorted(t);
    StarCounts(t[0], t[1], t[2], t[3], t[4]);
  }
}
